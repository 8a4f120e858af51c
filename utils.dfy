/** The helpers the routes share: the normaliser that turns the numeric columns of a
    result row into JavaScript numbers, and the generated invoice number. */
module Utils {
  import opened Js

  /** A result row: column name to value */
  type Row = map<string, Value>

  /** The columns the normaliser rewrites, in the order it visits them */
  const NumericFields: seq<string> := [
    "total_bill_amount", "amount_paid", "credit_amount", "purchase_price", "sell_price",
    "stock", "added_stock", "quantity", "unit_price", "subtotal", "total_price",
    "total_sales", "sales_volume"]

  /** The columns read with `parseInt`; the others are read with `parseFloat` */
  const IntegerFields: set<string> := {"added_stock", "quantity", "stock", "sales_volume"}

  /** The number one non-null column becomes: parsed, and NaN replaced by 0 */
  function Coerce(field: string, v: Value): real
  {
    if field in IntegerFields then
      match ParseInt(v)
      case Some(n) => n as real
      case None => 0.0
    else ParseFloatOrZero(v)
  }

  /** What the normaliser leaves in one column */
  function NormalizeField(field: string, v: Value): (r: Value)
    ensures field !in NumericFields ==> r == v
    ensures v.Null? ==> r == v
    ensures field in NumericFields && !v.Null? ==> r.Num?
    ensures field in IntegerFields && !v.Null? ==> r.Num? && r.x == r.x.Floor as real
  {
    if field in NumericFields && !v.Null? then Num(Coerce(field, v)) else v
  }

  /** The row the normaliser returns */
  function Normalized(row: Row): (r: Row)
    ensures r.Keys == row.Keys
    ensures forall k :: k in row && k !in NumericFields ==> r[k] == row[k]
    ensures forall k :: k in row && row[k].Null? ==> r[k].Null?
    ensures forall k :: k in row && k in NumericFields && !row[k].Null? ==> r[k].Num?
  {
    map k | k in row :: NormalizeField(k, row[k])
  }

  /** `parseNumericFields(row)`: a missing row is returned as it is; otherwise a copy whose
      listed, non-null columns are numbers */
  method ParseNumericFields(row: Option<Row>) returns (r: Option<Row>)
    ensures row.None? ==> r.None?
    ensures row.Some? ==> r == Some(Normalized(row.value))
  {
    if row.None? {
      return row;
    }
    var original := row.value;
    var parsed := original;
    for i := 0 to |NumericFields|
      invariant parsed.Keys == original.Keys
      invariant forall k :: k in parsed ==>
        parsed[k] == (if k in NumericFields[..i] then NormalizeField(k, original[k]) else original[k])
    {
      var field := NumericFields[i];
      assert NumericFields[..i + 1] == NumericFields[..i] + [field];
      if field in parsed && !parsed[field].Null? {
        NormalizeFieldIdempotent(field, original[field]);
        parsed := parsed[field := Num(Coerce(field, parsed[field]))];
      }
    }
    assert NumericFields[..|NumericFields|] == NumericFields;
    forall k | k in parsed
      ensures parsed[k] == Normalized(original)[k]
    {
    }
    assert parsed.Keys == Normalized(original).Keys;
    assert parsed == Normalized(original);
    return Some(parsed);
  }

  /** A column that is already a number of the right kind is left as it is */
  lemma NormalizeFieldIdempotent(field: string, v: Value)
    ensures NormalizeField(field, NormalizeField(field, v)) == NormalizeField(field, v)
  {
    var r := NormalizeField(field, v);
    if field in NumericFields && !v.Null? {
      if field in IntegerFields {
        ParseIntOfInteger(r.x.Floor);
      }
    }
  }

  /** Normalising a normalised row changes nothing, so reading a row twice is harmless */
  lemma NormalizedIdempotent(row: Row)
    ensures Normalized(Normalized(row)) == Normalized(row)
  {
    var once := Normalized(row);
    forall k | k in once
      ensures Normalized(once)[k] == once[k]
    {
      NormalizeFieldIdempotent(k, row[k]);
    }
  }

  /** A listed column whose value does not parse becomes 0 */
  lemma NormalizeUnparsable(field: string, v: Value)
    requires field in NumericFields && !v.Null?
    requires field in IntegerFields ==> ParseInt(v).None?
    requires field !in IntegerFields ==> ParseFloat(v).None?
    ensures NormalizeField(field, v) == Num(0.0)
  {
  }

  /** A money column holding a number keeps it, and an integer column truncates it */
  lemma NormalizeNumber(field: string, x: real)
    requires field in NumericFields
    ensures field !in IntegerFields ==> NormalizeField(field, Num(x)) == Num(x)
    ensures field in IntegerFields ==> NormalizeField(field, Num(x)) == Num(Trunc(x) as real)
  {
  }

  /** The invoice number `INV-<now>-<tie>` the server generates */
  function InvoiceText(now: nat, tie: nat): string
  {
    "INV-" + NatText(now) + "-" + NatText(tie)
  }

  /** `generateInvoiceNumber()` with the clock and `Math.random()` as parameters: the tie
      breaker is `Math.floor(random * 1000)`, so it lies in 0..999 */
  function GenerateInvoiceNumber(now: nat, random: real): (r: string)
    requires 0.0 <= random < 1.0
    ensures exists tie: nat :: tie < 1000 && r == InvoiceText(now, tie)
  {
    var tie := (random * 1000.0).Floor;
    assert 0 <= tie < 1000;
    InvoiceText(now, tie)
  }

  /** Two generated numbers are equal only when both the clock and the tie breaker are */
  lemma InvoiceTextInjective(now1: nat, tie1: nat, now2: nat, tie2: nat)
    requires InvoiceText(now1, tie1) == InvoiceText(now2, tie2)
    ensures now1 == now2 && tie1 == tie2
  {
    var a, b := NatText(now1), NatText(now2);
    var s := InvoiceText(now1, tie1);
    // the first '-' after the prefix ends the clock digits
    assert s == "INV-" + a + "-" + NatText(tie1);
    assert s == "INV-" + b + "-" + NatText(tie2);
    FirstNonDigit(a, NatText(tie1), b, NatText(tie2));
    NatTextInjective(now1, now2);
    NatTextInjective(tie1, tie2);
  }

  /** Splitting `a-x` and `b-y` at the first non-digit recovers the parts */
  lemma FirstNonDigit(a: string, x: string, b: string, y: string)
    requires AllDigits(a) && AllDigits(b)
    requires "INV-" + a + "-" + x == "INV-" + b + "-" + y
    ensures a == b && x == y
  {
    var s := "INV-" + a + "-" + x;
    assert s[4..] == a + "-" + x == b + "-" + y;
    DigitRunBeforeDash(a, x);
    DigitRunBeforeDash(b, y);
    assert a == s[4..][..|a|] && b == s[4..][..|b|];
    assert x == s[4..][|a| + 1..] && y == s[4..][|b| + 1..];
  }

  /** The digit run of `a-x` is a */
  lemma {:induction false} DigitRunBeforeDash(a: string, x: string)
    requires AllDigits(a)
    ensures DigitRun(a + "-" + x) == |a|
  {
    if a != [] {
      assert (a + "-" + x)[1..] == a[1..] + "-" + x;
      DigitRunBeforeDash(a[1..], x);
    }
  }
}
