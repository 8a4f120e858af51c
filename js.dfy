/** JavaScript values as they reach the route handlers and the React components,
    with the coercions the code relies on: truthiness, loose `== null`, `Number(...)`
    (behind `isNaN` and the relational operators), `parseFloat`, `parseInt`,
    `toFixed(2)`, and the decimal text of integers. Numbers are exact reals. */
module Js {

  datatype Option<+T> = None | Some(value: T)

  datatype Result<+T, +E> = Ok(value: T) | Err(error: E)

  /** A JSON scalar or `undefined`. Arrays and objects are modelled by the callers' datatypes. */
  datatype Value = Undefined | Null | Bool(b: bool) | Num(x: real) | Str(s: string)

  /** `!!v` */
  predicate Truthy(v: Value)
  {
    match v
    case Undefined => false
    case Null => false
    case Bool(b) => b
    case Num(x) => x != 0.0
    case Str(s) => s != ""
  }

  /** `v == null`: loose equality holds for both null and undefined */
  predicate IsNullish(v: Value)
  {
    v.Undefined? || v.Null?
  }

  /** `x || y` */
  function Or(x: Value, y: Value): (r: Value)
    ensures Truthy(x) ==> r == x
    ensures !Truthy(x) ==> r == y
  {
    if Truthy(x) then x else y
  }

  predicate IsDigit(c: char)
  {
    '0' <= c <= '9'
  }

  predicate AllDigits(s: string)
  {
    forall i :: 0 <= i < |s| ==> IsDigit(s[i])
  }

  /** The white space the number parsers skip */
  predicate IsSpace(c: char)
  {
    c == ' ' || c == '\t' || c == '\n' || c == '\r'
  }

  function TrimStart(s: string): (r: string)
    ensures |r| <= |s| && r == s[|s| - |r|..]
    ensures r == "" || !IsSpace(r[0])
  {
    if s != [] && IsSpace(s[0]) then TrimStart(s[1..]) else s
  }

  function TrimEnd(s: string): (r: string)
    ensures |r| <= |s| && r == s[..|r|]
    ensures r == "" || !IsSpace(r[|r| - 1])
  {
    if s != [] && IsSpace(s[|s| - 1]) then TrimEnd(s[..|s| - 1]) else s
  }

  /** Length of the run of decimal digits that starts s */
  function DigitRun(s: string): (n: nat)
    ensures n <= |s|
    ensures AllDigits(s[..n])
    ensures n < |s| ==> !IsDigit(s[n])
  {
    if s != [] && IsDigit(s[0]) then
      var n := 1 + DigitRun(s[1..]);
      assert s[..n] == [s[0]] + s[1..][..n - 1];
      n
    else 0
  }

  function DigitValue(c: char): nat
    requires IsDigit(c)
  {
    c as int - '0' as int
  }

  /** The number a string of decimal digits denotes, most significant digit first */
  function DigitsValue(d: string): nat
    requires AllDigits(d)
  {
    if d == [] then 0 else 10 * DigitsValue(d[..|d| - 1]) + DigitValue(d[|d| - 1])
  }

  /** The value of the digits after a decimal point: "25" is 0.25 */
  function FractionValue(d: string): real
    requires AllDigits(d)
  {
    if d == [] then 0.0 else (DigitValue(d[0]) as real + FractionValue(d[1..])) / 10.0
  }

  /** The longest prefix of s that reads as `[+-]? digits [. digits]` or `[+-]? . digits`,
      as its value and its length; (None, 0) when no prefix does. Exponents, `Infinity`
      and hexadecimal literals are not part of this model. */
  function DecimalPrefix(s: string): (r: (Option<real>, nat))
    ensures r.1 <= |s|
    ensures r.0.None? <==> r.1 == 0
  {
    var signLen := if s != [] && (s[0] == '-' || s[0] == '+') then 1 else 0;
    var u := s[signLen..];
    var i := DigitRun(u);
    var hasPoint := i < |u| && u[i] == '.';
    var f := if hasPoint then DigitRun(u[i + 1..]) else 0;
    if i == 0 && f == 0 then (None, 0)
    else
      var frac := if hasPoint then u[i + 1..][..f] else "";
      var magnitude := DigitsValue(u[..i]) as real + FractionValue(frac);
      (Some(if signLen == 1 && s[0] == '-' then -magnitude else magnitude),
       signLen + i + (if hasPoint then 1 + f else 0))
  }

  /** `parseFloat` of a string: leading white space skipped, longest numeric prefix read */
  function ParseFloatText(s: string): Option<real>
  {
    DecimalPrefix(TrimStart(s)).0
  }

  /** `Number(s)`: the trimmed text must be one decimal literal, and empty text is 0; the
      exponent, hexadecimal and `Infinity` forms are not modelled */
  function StringToNumber(s: string): Option<real>
  {
    var t := TrimEnd(TrimStart(s));
    if t == "" then Some(0.0)
    else
      var (v, n) := DecimalPrefix(t);
      if n == |t| then v else None
  }

  /** `Number(v)`, the coercion behind `isNaN`, `-` and the relational operators; None is NaN */
  function ToNumber(v: Value): Option<real>
  {
    match v
    case Undefined => None
    case Null => Some(0.0)
    case Bool(b) => Some(if b then 1.0 else 0.0)
    case Num(x) => Some(x)
    case Str(s) => StringToNumber(s)
  }

  /** `isNaN(v)` */
  predicate IsNaN(v: Value)
  {
    ToNumber(v).None?
  }

  /** `parseFloat(v)`; None is NaN (`parseFloat(null)` and `parseFloat(true)` are NaN) */
  function ParseFloat(v: Value): Option<real>
  {
    match v
    case Num(x) => Some(x)
    case Str(s) => ParseFloatText(s)
    case _ => None
  }

  /** `parseFloat(v) || 0` */
  function ParseFloatOrZero(v: Value): (r: real)
    ensures ParseFloat(v).None? ==> r == 0.0
    ensures ParseFloat(v).Some? ==> r == ParseFloat(v).value
  {
    match ParseFloat(v)
    case Some(x) => x
    case None => 0.0
  }

  /** Truncation toward zero */
  function Trunc(x: real): (n: int)
    ensures x >= 0.0 ==> 0.0 <= n as real <= x < n as real + 1.0
    ensures x < 0.0 ==> n as real - 1.0 < x <= n as real <= 0.0
  {
    if x >= 0.0 then x.Floor else -((-x).Floor)
  }

  /** `parseInt` of a string: leading white space skipped, `[+-]? digits` read */
  function IntPrefix(s: string): Option<int>
  {
    var t := TrimStart(s);
    var signLen := if t != [] && (t[0] == '-' || t[0] == '+') then 1 else 0;
    var u := t[signLen..];
    var i := DigitRun(u);
    if i == 0 then None
    else if signLen == 1 && t[0] == '-' then Some(0 - DigitsValue(u[..i]))
    else Some(DigitsValue(u[..i]))
  }

  /** `parseInt(v, 10)`; None is NaN. Only decimal digits are read: the `0x` prefix, with
      which `parseInt` reads hexadecimal when no radix is given, is not modelled. A number is read
      through its decimal text, which truncates it (the exponent form of very large or very
      small numbers is not modelled). */
  function ParseInt(v: Value): Option<int>
  {
    match v
    case Num(x) => Some(Trunc(x))
    case Str(s) => IntPrefix(s)
    case _ => None
  }

  /** Order of two strings by code point. JavaScript compares UTF-16 code units, which
      agrees except between a character above U+FFFF and one from U+E000 to U+FFFF. */
  predicate TextLess(a: string, b: string)
  {
    if a == [] then b != []
    else if b == [] then false
    else if a[0] != b[0] then a[0] < b[0]
    else TextLess(a[1..], b[1..])
  }

  /** `a < b` */
  predicate Less(a: Value, b: Value)
  {
    if a.Str? && b.Str? then TextLess(a.s, b.s)
    else ToNumber(a).Some? && ToNumber(b).Some? && ToNumber(a).value < ToNumber(b).value
  }

  /** `a <= b` */
  predicate LessEq(a: Value, b: Value)
  {
    if a.Str? && b.Str? then !TextLess(b.s, a.s)
    else ToNumber(a).Some? && ToNumber(b).Some? && ToNumber(a).value <= ToNumber(b).value
  }

  /** The row key a value matches in `WHERE id = ?`: an integral number, or text that reads
      as one; null and undefined match nothing */
  function AsKey(v: Value): Option<int>
  {
    if IsNullish(v) then None
    else match ToNumber(v)
      case Some(x) => if x == x.Floor as real then Some(x.Floor) else None
      case None => None
  }

  /** Rounding of `toFixed(2)` on an exact value: the nearest multiple of 0.01, a half
      rounded away from zero (toFixed works on the magnitude and prefixes the sign) */
  function ToFixed2(x: real): real
  {
    if x < 0.0 then -HalfUpCents(-x) else HalfUpCents(x)
  }

  function HalfUpCents(y: real): real
  {
    ((y * 100.0 + 0.5).Floor as real) / 100.0
  }

  /** Decimal text of a natural number, most significant digit first */
  function NatText(n: nat): (r: string)
    ensures |r| >= 1 && AllDigits(r)
  {
    (if n < 10 then "" else NatText(n / 10)) + [('0' as int + n % 10) as char]
  }

  /** Decimal text of an integer, as template literals print it */
  function IntText(n: int): string
  {
    if n < 0 then "-" + NatText(-n) else NatText(n)
  }

  /** Whether t occurs in s, as `s.includes(t)` */
  predicate Contains(s: string, t: string)
  {
    exists i :: 0 <= i <= |s| && OccursAt(s, t, i)
  }

  predicate OccursAt(s: string, t: string, i: nat)
  {
    i + |t| <= |s| && s[i..i + |t|] == t
  }

  // ---------------------------------------------------------------- lemmas

  /** Reading the decimal text of n gives n back */
  lemma {:induction false} NatTextRoundTrip(n: nat)
    ensures DigitsValue(NatText(n)) == n
  {
    var r := NatText(n);
    var last := ('0' as int + n % 10) as char;
    var front := if n < 10 then "" else NatText(n / 10);
    assert r == front + [last];
    assert r[..|r| - 1] == front;
    assert DigitValue(last) == n % 10;
    calc {
      DigitsValue(r);
      10 * DigitsValue(front) + n % 10;
      { if n >= 10 { NatTextRoundTrip(n / 10); } }
      10 * (n / 10) + n % 10;
    }
  }

  /** Two numbers with the same decimal text are equal */
  lemma NatTextInjective(a: nat, b: nat)
    requires NatText(a) == NatText(b)
    ensures a == b
  {
    NatTextRoundTrip(a);
    NatTextRoundTrip(b);
  }

  /** `Number` reads a plain run of digits as the number it denotes */
  lemma DigitTextReads(s: string)
    requires s != [] && AllDigits(s)
    ensures ToNumber(Str(s)) == Some(DigitsValue(s) as real)
  {
    assert IsDigit(s[0]) && IsDigit(s[|s| - 1]);
    assert TrimStart(s) == s;
    assert TrimEnd(s) == s;
    DigitRunOfDigits(s);
    DecimalPrefixValue(s);
    DecimalPrefixLength(s);
  }

  /** The longest numeric prefix of a run of digits is all of it */
  lemma DecimalPrefixValue(s: string)
    requires s != [] && IsDigit(s[0]) && DigitRun(s) == |s|
    ensures AllDigits(s) && DecimalPrefix(s).0 == Some(DigitsValue(s) as real)
  {
    var u := s[0..];
    assert u == s;
    assert u[..|s|] == s;
  }

  lemma DecimalPrefixLength(s: string)
    requires s != [] && AllDigits(s)
    ensures DecimalPrefix(s).1 == |s|
  {
    assert IsDigit(s[0]);
    assert s[0..] == s;
    DigitRunOfDigits(s);
  }

  lemma DigitRunOfDigits(s: string)
    requires AllDigits(s)
    ensures DigitRun(s) == |s|
  {
  }

  /** `parseInt` gives back an integer it is handed */
  lemma ParseIntOfInteger(n: int)
    ensures ParseInt(Num(n as real)) == Some(n)
  {
  }

  /** `toFixed(2)` moves a value by at most half a cent */
  lemma ToFixed2Close(x: real)
    ensures -0.005 <= ToFixed2(x) - x <= 0.005
  {
    var y := if x < 0.0 then -x else x;
    var k := (y * 100.0 + 0.5).Floor;
    assert k as real <= y * 100.0 + 0.5 < k as real + 1.0;
  }

  /** `toFixed(2)` keeps the sign of a value */
  lemma ToFixed2Sign(x: real)
    ensures x >= 0.0 ==> ToFixed2(x) >= 0.0
    ensures x <= 0.0 ==> ToFixed2(x) <= 0.0
  {
    var y := if x < 0.0 then -x else x;
    var k := (y * 100.0 + 0.5).Floor;
    assert k as real <= y * 100.0 + 0.5 < k as real + 1.0;
    assert k >= 0;
  }

  /** A whole number of cents is left as it is */
  lemma ToFixed2OfCents(c: int)
    ensures ToFixed2(c as real / 100.0) == c as real / 100.0
  {
    var x := c as real / 100.0;
    if c < 0 {
      assert (-x) * 100.0 + 0.5 == (-c) as real + 0.5;
      assert ((-x) * 100.0 + 0.5).Floor == -c;
    } else {
      assert x * 100.0 + 0.5 == c as real + 0.5;
      assert (x * 100.0 + 0.5).Floor == c;
    }
  }

  /** Rounding twice is rounding once */
  lemma ToFixed2Idempotent(x: real)
    ensures ToFixed2(ToFixed2(x)) == ToFixed2(x)
  {
    var y := if x < 0.0 then -x else x;
    var k := (y * 100.0 + 0.5).Floor;
    assert ToFixed2(x) == (if x < 0.0 then -k else k) as real / 100.0;
    ToFixed2OfCents(if x < 0.0 then -k else k);
  }

  /** A text that does not contain some character of t does not contain t */
  lemma NotContainsWithoutChar(s: string, t: string, c: char)
    requires c in t && c !in s
    ensures !Contains(s, t)
  {
    var j :| 0 <= j < |t| && t[j] == c;
    forall i: nat | i <= |s|
      ensures !OccursAt(s, t, i)
    {
      if i + |t| <= |s| {
        assert s[i..i + |t|][j] == s[i + j];
        assert s[i + j] in s;
      }
    }
  }

  /** t occurs in a + t + b */
  lemma ContainsMiddle(a: string, t: string, b: string)
    ensures Contains(a + t + b, t)
  {
    var s := a + t + b;
    assert OccursAt(s, t, |a|);
  }

  /** Code-point order on strings is irreflexive, transitive and total */
  lemma {:induction false} TextLessIrreflexive(a: string)
    ensures !TextLess(a, a)
  {
    if a != [] {
      TextLessIrreflexive(a[1..]);
    }
  }

  lemma {:induction false} TextLessTransitive(a: string, b: string, c: string)
    requires TextLess(a, b) && TextLess(b, c)
    ensures TextLess(a, c)
  {
    if a != [] && b != [] && c != [] && a[0] == b[0] && b[0] == c[0] {
      TextLessTransitive(a[1..], b[1..], c[1..]);
    }
  }

  lemma {:induction false} TextLessTotal(a: string, b: string)
    ensures a == b || TextLess(a, b) || TextLess(b, a)
  {
    if a != [] && b != [] && a[0] == b[0] {
      TextLessTotal(a[1..], b[1..]);
      if a[1..] == b[1..] {
        assert a == [a[0]] + a[1..] && b == [b[0]] + b[1..];
      }
    }
  }
}
