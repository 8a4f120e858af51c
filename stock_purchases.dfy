/** `POST /stock-purchases` records a vendor's purchase invoice and receives its products
    into stock; `PUT /stock-purchases/:id/pay-credit` pays off part of its credit. */
module StockPurchases {
  import opened Js
  import opened Ledger
  import opened Utils

  /** One element of the request's `products` array */
  datatype PurchaseItem = PurchaseItem(
    productId: Value,
    addedStock: Value,
    purchasePrice: Value,
    sellPrice: Value,
    expiryDate: Value)

  /** The fields of the request body the handler reads; `products` is None when it is
      missing or not an array */
  datatype PurchaseRequest = PurchaseRequest(
    vendorId: Value,
    invoiceNumber: Value,
    purchaseDate: Value,
    paymentMethod: Value,
    amountPaid: Value,
    totalBillAmount: Value,
    products: Option<seq<PurchaseItem>>)

  /** An item after `parseProductFields`: the fields the handler goes on to use */
  datatype ParsedItem = ParsedItem(productId: int, addedStock: int, expiryDate: Value)

  datatype PurchaseError =
    | MissingFields
    | NonPositiveTotal
    | InvalidVendorId
    | VendorNotFound
    | ProductsInvalid
    | MissingItemField(index: nat)
    | InvalidAddedStock(index: nat)
    | InvalidProductId(index: nat)
    | InvalidAmountPaid
    | InvalidPaymentMethod
    | ProductNotFound(id: int)
    | VendorMismatch(id: int)
    | ExpiryRequired(id: int)

  /** The 201 body */
  datatype PurchaseReceipt = PurchaseReceipt(invoiceId: int, invoiceNumber: Value)

  /** The two request checks made before the transaction answer 400; anything thrown inside
      it answers 500 */
  function StatusOf(e: PurchaseError): int
  {
    if e == MissingFields || e == NonPositiveTotal then 400 else 500
  }

  /** `parseFloatOrDefault(value, default)` */
  function ParseFloatOrDefault(v: Value, default: real): real
  {
    if IsNullish(v) then default
    else match ParseFloat(v)
      case None => default
      case Some(x) => ToFixed2(x)
  }

  /** The checks and conversions `parseProductFields` applies to the item at `index` */
  function ParseItem(item: PurchaseItem, index: nat): Result<ParsedItem, PurchaseError>
  {
    if !Truthy(item.productId) || IsNullish(item.addedStock) then Err(MissingItemField(index))
    else
      var stock := ParseInt(item.addedStock);
      if stock.None? || stock.value <= 0 then Err(InvalidAddedStock(index))
      else match ParseInt(item.productId)
        case None => Err(InvalidProductId(index))
        case Some(id) => Ok(ParsedItem(id, stock.value, Or(item.expiryDate, Null)))
  }

  /** `items.map(...)`: every item is checked in order, and the first that fails throws */
  function ParseItems(items: seq<PurchaseItem>): Result<seq<ParsedItem>, PurchaseError>
  {
    Collect(seq(|items|, i requires 0 <= i < |items| => ParseItem(items[i], i)))
  }

  /** The values of a run of results, or the first error among them */
  function Collect<T, E>(rs: seq<Result<T, E>>): Result<seq<T>, E>
  {
    if rs == [] then Ok([])
    else match rs[0]
      case Err(e) => Err(e)
      case Ok(first) =>
        match Collect(rs[1..])
        case Err(e) => Err(e)
        case Ok(rest) => Ok([first] + rest)
  }

  /** Result `i` is the first error */
  predicate FirstError<T, E>(rs: seq<Result<T, E>>, i: int)
  {
    0 <= i < |rs| && rs[i].Err? && forall j :: 0 <= j < i ==> rs[j].Ok?
  }

  /** A run of results collects when every one is a value, into those values in order;
      otherwise into the first error */
  lemma {:induction false} CollectSpec<T, E>(rs: seq<Result<T, E>>)
    ensures Collect(rs).Ok? <==> forall i :: 0 <= i < |rs| ==> rs[i].Ok?
    ensures Collect(rs).Ok? ==> |Collect(rs).value| == |rs|
    ensures Collect(rs).Ok? ==> forall i :: 0 <= i < |rs| ==> Collect(rs).value[i] == rs[i].value
    ensures Collect(rs).Err? ==> exists i :: FirstError(rs, i) && Collect(rs).error == rs[i].error
  {
    if rs != [] && rs[0].Ok? {
      var tail := rs[1..];
      CollectSpec(tail);
      TailIndices(rs);
      if Collect(tail).Err? {
        var k :| FirstError(tail, k) && Collect(tail).error == tail[k].error;
        assert FirstError(rs, k + 1);
      }
    } else if rs != [] {
      assert FirstError(rs, 0);
    }
  }

  /** Element i of a sequence is element i - 1 of its tail */
  lemma TailIndices<T>(s: seq<T>)
    requires s != []
    ensures forall i :: 0 < i < |s| ==> s[i] == s[1..][i - 1]
  {
  }

  /** `parseProductFields(products)` */
  function ParseProductFields(products: Option<seq<PurchaseItem>>): Result<seq<ParsedItem>, PurchaseError>
  {
    if products.None? || products.value == [] then Err(ProductsInvalid)
    else ParseItems(products.value)
  }

  /** The payment `switch`: the amounts to store as paid and as credit, before rounding */
  function PaymentSplit(paymentMethod: Value, total: Value, amountPaid: Value): Result<(Value, Value), PurchaseError>
    requires ToNumber(total).Some?
  {
    if paymentMethod == Str("cash") then Ok((total, Num(0.0)))
    else if paymentMethod == Str("credit") then Ok((Num(0.0), total))
    else if paymentMethod == Str("cash_and_credit") then
      if amountPaid.Undefined? || IsNaN(amountPaid) || Less(amountPaid, Num(0.0)) || Less(total, amountPaid) then
        Err(InvalidAmountPaid)
      else Ok((amountPaid, Num(ToNumber(total).value - ToNumber(amountPaid).value)))
    else Err(InvalidPaymentMethod)
  }

  /** What the checks before the item loop produce */
  datatype Header = Header(vendor: int, items: seq<ParsedItem>, paid: Value, credit: Value)

  /** The request checks (400) and the checks inside the transaction before the item loop (500) */
  function CheckPurchase(s: Db, req: PurchaseRequest): Result<Header, PurchaseError>
  {
    if !Truthy(req.vendorId) || !Truthy(req.invoiceNumber) || !Truthy(req.purchaseDate)
       || !Truthy(req.paymentMethod) || req.totalBillAmount.Undefined?
       || req.products.None? || req.products.value == [] then Err(MissingFields)
    else if IsNaN(req.totalBillAmount) || LessEq(req.totalBillAmount, Num(0.0)) then Err(NonPositiveTotal)
    else match ParseInt(req.vendorId)
      case None => Err(InvalidVendorId)
      case Some(vendor) =>
        if vendor !in s.vendors then Err(VendorNotFound)
        else match ParseProductFields(req.products)
          case Err(e) => Err(e)
          case Ok(items) =>
            match PaymentSplit(req.paymentMethod, req.totalBillAmount, req.amountPaid)
            case Err(e) => Err(e)
            case Ok((paid, credit)) => Ok(Header(vendor, items, paid, credit))
  }

  /** What every stock entry of one purchase shares, and the id of the next entry */
  datatype Delivery = Delivery(invoice: int, vendor: int, date: Value, paymentMethod: Value, now: nat, nextId: int)

  /** The `stock_entries` row written for one item */
  function EntryFor(item: ParsedItem, expiry: Value, d: Delivery): StockEntry
  {
    StockEntry(d.nextId, Some(d.invoice), item.productId, Num(item.addedStock as real), Null, Null,
               d.date, expiry, d.paymentMethod, Null, Null, Null, Some(d.vendor), d.now)
  }

  /** The item loop: each product must exist, belong to the vendor, and have an expiry date
      when it tracks one; its entry is written and its stock raised (and its expiry date set
      when tracked). The result is the products table and the new entries, in order. */
  function Receive(products: map<int, Product>, items: seq<ParsedItem>, d: Delivery)
    : Result<(map<int, Product>, seq<StockEntry>), PurchaseError>
    decreases |items|
  {
    if items == [] then Ok((products, []))
    else
      var item := items[0];
      if item.productId !in products then Err(ProductNotFound(item.productId))
      else
        var p := products[item.productId];
        if p.vendor != Some(d.vendor) then Err(VendorMismatch(item.productId))
        else if p.tracksExpiry && !Truthy(item.expiryDate) then Err(ExpiryRequired(item.productId))
        else
          var expiry := if p.tracksExpiry then item.expiryDate else Null;
          var updated := p.(stock := p.stock + item.addedStock, expiry := if p.tracksExpiry then expiry else p.expiry);
          Prepend([EntryFor(item, expiry, d)],
                  Receive(products[item.productId := updated], items[1..], d.(nextId := d.nextId + 1)))
  }

  /** Entries written before the rest of the loop ran */
  function Prepend(entries: seq<StockEntry>, r: Result<(map<int, Product>, seq<StockEntry>), PurchaseError>)
    : Result<(map<int, Product>, seq<StockEntry>), PurchaseError>
  {
    match r
    case Err(e) => Err(e)
    case Ok((products, rest)) => Ok((products, entries + rest))
  }

  /** Prepending no entries changes nothing */
  lemma PrependNothing(r: Result<(map<int, Product>, seq<StockEntry>), PurchaseError>)
    ensures Prepend([], r) == r
  {
    if r.Ok? {
      assert [] + r.value.1 == r.value.1;
    }
  }

  /** Entries prepended in two steps, or in one */
  lemma PrependTwice(a: seq<StockEntry>, b: seq<StockEntry>, r: Result<(map<int, Product>, seq<StockEntry>), PurchaseError>)
    ensures Prepend(a, Prepend(b, r)) == Prepend(a + b, r)
  {
    if r.Ok? {
      assert a + (b + r.value.1) == (a + b) + r.value.1;
    }
  }

  /** The tables after the request, and the response. `now` is the clock and `random` the
      value of `Math.random()` behind a generated invoice number. */
  function RecordPurchase(s: Db, req: PurchaseRequest, now: nat, random: real): (Db, Reply<PurchaseReceipt, PurchaseError>)
    requires 0.0 <= random < 1.0
  {
    match CheckPurchase(s, req)
    case Err(e) => (s, Refused(StatusOf(e), e))
    case Ok(h) =>
      var number := Or(req.invoiceNumber, Str(GenerateInvoiceNumber(now, random)));
      var id := s.nextPurchaseId;
      match Receive(s.products, h.items, Delivery(id, h.vendor, req.purchaseDate, req.paymentMethod, now, s.nextEntryId))
      case Err(e) => (s, Refused(StatusOf(e), e))
      case Ok((products, entries)) =>
        (Admitted(s, NewInvoice(req, h, number), products, entries), Done(201, PurchaseReceipt(id, number)))
  }

  /** The invoice row the INSERT writes; the amounts are stored rounded to cents */
  function NewInvoice(req: PurchaseRequest, h: Header, number: Value): PurchaseInvoice
  {
    PurchaseInvoice(number, h.vendor, req.purchaseDate,
      ParseFloatOrDefault(req.totalBillAmount, 0.0), req.paymentMethod,
      ParseFloatOrDefault(h.paid, 0.0), ParseFloatOrDefault(h.credit, 0.0), Null, Null)
  }

  /** The tables once the transaction commits: the invoice under the next id, the updated
      products, and the stock entries appended */
  function Admitted(s: Db, invoice: PurchaseInvoice, products: map<int, Product>, entries: seq<StockEntry>): Db
  {
    s.(products := products,
       purchases := s.purchases[s.nextPurchaseId := invoice],
       entries := s.entries + entries,
       nextPurchaseId := s.nextPurchaseId + 1,
       nextEntryId := s.nextEntryId + |entries|)
  }

  /** The item loop inside the transaction, run on a working copy of the products table */
  method ReceiveItems(start: map<int, Product>, items: seq<ParsedItem>, d0: Delivery)
    returns (r: Result<(map<int, Product>, seq<StockEntry>), PurchaseError>)
    ensures r == Receive(start, items, d0)
  {
    var products := start;
    var written: seq<StockEntry> := [];
    assert items[0..] == items;
    assert d0.(nextId := d0.nextId + 0) == d0;
    PrependNothing(Receive(products, items, d0));
    for i := 0 to |items|
      invariant |written| == i
      invariant Receive(start, items, d0)
        == Prepend(written, Receive(products, items[i..], d0.(nextId := d0.nextId + i)))
    {
      var item := items[i];
      var d := d0.(nextId := d0.nextId + i);
      assert items[i..][1..] == items[i + 1..];
      assert items[i..][0] == item;
      if item.productId !in products {
        return Err(ProductNotFound(item.productId));
      }
      var p := products[item.productId];
      if p.vendor != Some(d0.vendor) {
        return Err(VendorMismatch(item.productId));
      }
      var expiry := if p.tracksExpiry then item.expiryDate else Null;
      if p.tracksExpiry && !Truthy(item.expiryDate) {
        return Err(ExpiryRequired(item.productId));
      }
      var updated := p.(stock := p.stock + item.addedStock, expiry := if p.tracksExpiry then expiry else p.expiry);
      assert d.(nextId := d.nextId + 1) == d0.(nextId := d0.nextId + (i + 1));
      PrependTwice(written, [EntryFor(item, expiry, d)],
                   Receive(products[item.productId := updated], items[i + 1..], d0.(nextId := d0.nextId + (i + 1))));
      written := written + [EntryFor(item, expiry, d)];
      products := products[item.productId := updated];
    }
    assert items[|items|..] == [];
    assert written + [] == written;
    r := Ok((products, written));
  }

  /** The route handler */
  method RecordPurchaseHandler(db: Database, req: PurchaseRequest, now: nat, random: real)
    returns (reply: Reply<PurchaseReceipt, PurchaseError>)
    requires 0.0 <= random < 1.0
    modifies db
    ensures (db.State(), reply) == RecordPurchase(old(db.State()), req, now, random)
  {
    var s := db.State();
    var checked := CheckPurchase(s, req);
    if checked.Err? {
      return Refused(StatusOf(checked.error), checked.error);
    }
    var h := checked.value;
    var number := Or(req.invoiceNumber, Str(GenerateInvoiceNumber(now, random)));
    var id := s.nextPurchaseId;
    var received := ReceiveItems(s.products, h.items,
      Delivery(id, h.vendor, req.purchaseDate, req.paymentMethod, now, s.nextEntryId));
    if received.Err? {
      return Refused(StatusOf(received.error), received.error);
    }
    var (products, written) := received.value;
    db.Commit(Admitted(s, NewInvoice(req, h, number), products, written));
    reply := Done(201, PurchaseReceipt(id, number));
  }

  /** The body of `PUT /stock-purchases/:id/pay-credit`, with the `:id` path parameter */
  datatype PurchasePayment = PurchasePayment(invoiceId: string, amountPaid: Value, paymentDate: Value)

  /** The tables after a purchase credit payment, and the response: the remaining credit */
  function PayPurchaseCredit(s: Db, req: PurchasePayment): (Db, Reply<real, CreditError>)
  {
    if !req.amountPaid.Num? || req.amountPaid.x <= 0.0 then (s, Refused(400, InvalidAmount))
    else if !Truthy(req.paymentDate) then (s, Refused(400, MissingPaymentDate))
    else match ParseInt(Str(req.invoiceId))
      // `WHERE id = NaN` is not valid SQL, so the query throws
      case None => (s, Refused(500, ServerError))
      case Some(k) =>
        if k !in s.purchases then (s, Refused(404, InvoiceNotFound))
        else
          var inv := s.purchases[k];
          var amount := req.amountPaid.x;
          var paid := ParseFloatOrDefault(Num(inv.paid), 0.0);
          var credit := ParseFloatOrDefault(Num(inv.credit), 0.0);
          if amount > credit then (s, Refused(400, ExceedsCredit))
          else (PurchaseSettled(s, k, paid, credit, amount, req.paymentDate), Done(200, credit - amount))
  }

  /** The tables after an accepted purchase payment: the amount moves from credit to paid,
      the payment date is recorded, and the payment is logged */
  function PurchaseSettled(s: Db, k: int, paid: real, credit: real, amount: real, date: Value): Db
    requires k in s.purchases
  {
    s.(purchases := s.purchases[k := s.purchases[k].(paid := paid + amount, credit := credit - amount,
                                                     lastPaymentDate := date)],
       payments := s.payments + [CreditPayment(k, PurchaseKind, amount, date)])
  }

  /** The route handler */
  method PayPurchaseCreditHandler(db: Database, req: PurchasePayment) returns (reply: Reply<real, CreditError>)
    modifies db
    ensures (db.State(), reply) == PayPurchaseCredit(old(db.State()), req)
  {
    if !req.amountPaid.Num? || req.amountPaid.x <= 0.0 {
      return Refused(400, InvalidAmount);
    }
    if !Truthy(req.paymentDate) {
      return Refused(400, MissingPaymentDate);
    }
    var s := db.State();
    var key := ParseInt(Str(req.invoiceId));
    if key.None? {
      return Refused(500, ServerError);
    }
    var k := key.value;
    if k !in s.purchases {
      return Refused(404, InvoiceNotFound);
    }
    var inv := s.purchases[k];
    var amount := req.amountPaid.x;
    var paid := ParseFloatOrDefault(Num(inv.paid), 0.0);
    var credit := ParseFloatOrDefault(Num(inv.credit), 0.0);
    if amount > credit {
      return Refused(400, ExceedsCredit);
    }
    db.Commit(PurchaseSettled(s, k, paid, credit, amount, req.paymentDate));
    reply := Done(200, credit - amount);
  }

  // ------------------------------------------------------------------ query parameters

  /** `validateQueryParams(params, names)`: every named parameter is present and not NaN,
      except that an `expiry_date` may be null */
  predicate ParamsValid(params: seq<Value>, names: seq<string>)
  {
    forall i :: 0 <= i < |names| ==> ParamValid(if i < |params| then params[i] else Undefined, names[i])
  }

  predicate ParamValid(v: Value, name: string)
  {
    (name == "expiry_date" && v.Null?) || !IsNullish(v)
  }

  /** Parameters none of which is null or undefined always pass */
  lemma PresentParamsValid(params: seq<Value>, names: seq<string>)
    requires |names| <= |params|
    requires forall i :: 0 <= i < |params| ==> !IsNullish(params[i])
    ensures ParamsValid(params, names)
  {
  }

  /** The invoice row's parameters always pass once the checks have passed, so that
      validation never throws there */
  lemma InvoiceParamsValid(req: PurchaseRequest, h: Header, number: Value)
    requires Truthy(number) && Truthy(req.purchaseDate) && Truthy(req.paymentMethod)
    ensures var inv := NewInvoice(req, h, number);
      ParamsValid([inv.number, Num(inv.vendor as real), inv.date, Num(inv.total), inv.paymentMethod,
                   Num(inv.paid), Num(inv.credit)],
                  ["invoice_number", "vendor_id", "purchase_date", "total_bill_amount",
                   "payment_method", "amount_paid", "credit_amount"])
  {
    var inv := NewInvoice(req, h, number);
    PresentParamsValid([inv.number, Num(inv.vendor as real), inv.date, Num(inv.total), inv.paymentMethod,
                        Num(inv.paid), Num(inv.credit)],
                       ["invoice_number", "vendor_id", "purchase_date", "total_bill_amount",
                        "payment_method", "amount_paid", "credit_amount"]);
  }

  /** A request that passes the checks carries an invoice number, a date and a method */
  lemma CheckedFieldsPresent(s: Db, req: PurchaseRequest)
    requires CheckPurchase(s, req).Ok?
    ensures Truthy(req.invoiceNumber) && Truthy(req.purchaseDate) && Truthy(req.paymentMethod)
  {
  }

  /** The stock entry's and the product update's parameters always pass for an item the
      loop has accepted */
  lemma ItemParamsValid(item: ParsedItem, p: Product, d: Delivery)
    requires Truthy(d.date) && Truthy(d.paymentMethod)
    requires p.tracksExpiry ==> Truthy(item.expiryDate)
    ensures var expiry := if p.tracksExpiry then item.expiryDate else Null;
      ParamsValid([Num(d.invoice as real), Num(item.productId as real), Num(item.addedStock as real),
                   d.date, expiry, d.paymentMethod, Num(d.vendor as real)],
                  ["stock_purchase_invoice_id", "product_id", "added_stock", "purchase_date",
                   "expiry_date", "payment_method", "vendor_id"])
    ensures p.tracksExpiry ==>
      ParamsValid([Num(item.addedStock as real), item.expiryDate, Num(item.productId as real)],
                  ["added_stock", "expiry_date", "product_id"])
    ensures !p.tracksExpiry ==>
      ParamsValid([Num(item.addedStock as real), Num(item.productId as real)], ["added_stock", "product_id"])
  {
  }

  // ------------------------------------------------------------------ parsing

  /** An accepted products array gives one parsed item per element, each with a positive
      stock, the element's product id read as an integer, and a truthy or null expiry date */
  lemma ParseProductFieldsEffect(products: Option<seq<PurchaseItem>>)
    ensures products.None? || products.value == [] ==> ParseProductFields(products) == Err(ProductsInvalid)
    ensures ParseProductFields(products).Ok? ==>
      var items := ParseProductFields(products).value;
      && |items| == |products.value| > 0
      && forall i :: 0 <= i < |items| ==>
           && items[i].addedStock > 0
           && Some(items[i].productId) == ParseInt(products.value[i].productId)
           && Some(items[i].addedStock) == ParseInt(products.value[i].addedStock)
           && (Truthy(items[i].expiryDate) || items[i].expiryDate.Null?)
  {
    if products.Some? && products.value != [] {
      var ps := products.value;
      var rs := seq(|ps|, i requires 0 <= i < |ps| => ParseItem(ps[i], i));
      CollectSpec(rs);
      if Collect(rs).Ok? {
        var items := Collect(rs).value;
        forall i | 0 <= i < |items|
          ensures items[i].addedStock > 0
          ensures Some(items[i].productId) == ParseInt(ps[i].productId)
          ensures Some(items[i].addedStock) == ParseInt(ps[i].addedStock)
          ensures Truthy(items[i].expiryDate) || items[i].expiryDate.Null?
        {
          assert rs[i] == ParseItem(ps[i], i);
          ParsedItemFacts(ps[i], i);
        }
      }
    }
  }

  /** A products array that does not parse fails with the error of its first failing item */
  lemma ParseItemsFirstError(items: seq<PurchaseItem>)
    requires ParseItems(items).Err?
    ensures exists i :: (0 <= i < |items| && ParseItem(items[i], i).Err?
                         && (forall j :: 0 <= j < i ==> ParseItem(items[j], j).Ok?)
                         && ParseItems(items).error == ParseItem(items[i], i).error)
  {
    var rs := seq(|items|, i requires 0 <= i < |items| => ParseItem(items[i], i));
    CollectSpec(rs);
    var k :| FirstError(rs, k) && Collect(rs).error == rs[k].error;
    assert forall j :: 0 <= j <= k ==> rs[j] == ParseItem(items[j], j);
  }

  /** One item that passes its checks has a positive stock, both ids read as integers, and
      a truthy or null expiry date */
  lemma ParsedItemFacts(item: PurchaseItem, index: nat)
    requires ParseItem(item, index).Ok?
    ensures var p := ParseItem(item, index).value;
      && p.addedStock > 0
      && Some(p.productId) == ParseInt(item.productId)
      && Some(p.addedStock) == ParseInt(item.addedStock)
      && (Truthy(p.expiryDate) || p.expiryDate.Null?)
  {
  }

  /** An amount read back after it was stored rounded is the amount stored */
  lemma ParseFloatOrDefaultStable(v: Value, e: real)
    ensures ParseFloatOrDefault(Num(ParseFloatOrDefault(v, 0.0)), e) == ParseFloatOrDefault(v, 0.0)
  {
    StoredAmountRounded(v);
  }

  /** The amount stored is already rounded to cents */
  lemma StoredAmountRounded(v: Value)
    ensures ToFixed2(ParseFloatOrDefault(v, 0.0)) == ParseFloatOrDefault(v, 0.0)
  {
    ToFixed2OfCents(0);
    if !IsNullish(v) && ParseFloat(v).Some? {
      ToFixed2Idempotent(ParseFloat(v).value);
    }
  }

  /** Rounding moves an amount by at most half a cent */
  lemma ParseFloatOrDefaultClose(v: Value, d: real)
    requires !IsNullish(v) && ParseFloat(v).Some?
    ensures -0.005 <= ParseFloatOrDefault(v, d) - ParseFloat(v).value <= 0.005
  {
    ToFixed2Close(ParseFloat(v).value);
  }

  // ------------------------------------------------------------------ payment split

  /** The paid and credit parts are numbers adding up to the total */
  lemma PaymentSplitAddsUp(paymentMethod: Value, total: Value, amountPaid: Value)
    requires ToNumber(total).Some?
    ensures PaymentSplit(paymentMethod, total, amountPaid).Ok? ==>
      var (paid, credit) := PaymentSplit(paymentMethod, total, amountPaid).value;
      ToNumber(paid).Some? && ToNumber(credit).Some?
      && ToNumber(paid).value + ToNumber(credit).value == ToNumber(total).value
  {
    var r := PaymentSplit(paymentMethod, total, amountPaid);
    if paymentMethod == Str("cash") {
      assert r == Ok((total, Num(0.0)));
    } else if paymentMethod == Str("credit") {
      assert r == Ok((Num(0.0), total));
    } else if paymentMethod == Str("cash_and_credit") && r.Ok? {
      assert !IsNaN(amountPaid);
    }
  }

  /** Only the three methods the switch names are accepted; bank transfers are refused */
  lemma PaymentSplitMethods(paymentMethod: Value, total: Value, amountPaid: Value)
    requires ToNumber(total).Some?
    ensures PaymentSplit(paymentMethod, total, amountPaid).Ok? ==>
      paymentMethod in {Str("cash"), Str("credit"), Str("cash_and_credit")}
    ensures paymentMethod == Str("bank_transfer") ==>
      PaymentSplit(paymentMethod, total, amountPaid) == Err(InvalidPaymentMethod)
  {
  }

  /** With a positive total, neither part is negative, unless the total and the amount paid
      both arrive as text: `amount_paid > total_bill_amount` then compares them as text */
  lemma PaymentSplitNonNegative(paymentMethod: Value, total: Value, amountPaid: Value)
    requires ToNumber(total).Some? && ToNumber(total).value > 0.0
    requires !(total.Str? && amountPaid.Str?)
    ensures PaymentSplit(paymentMethod, total, amountPaid).Ok? ==>
      var (paid, credit) := PaymentSplit(paymentMethod, total, amountPaid).value;
      && ToNumber(paid).Some? && ToNumber(credit).Some?
      && ToNumber(paid).value >= 0.0 && ToNumber(credit).value >= 0.0
  {
    if paymentMethod == Str("cash_and_credit") {
      CashAndCreditSplit(total, amountPaid);
    } else if paymentMethod != Str("cash") && paymentMethod != Str("credit") {
      assert PaymentSplit(paymentMethod, total, amountPaid).Err?;
    }
  }

  /** The cash-and-credit branch: the amount paid is a number between 0 and the total */
  lemma CashAndCreditSplit(total: Value, amountPaid: Value)
    requires ToNumber(total).Some?
    requires !(total.Str? && amountPaid.Str?)
    ensures PaymentSplit(Str("cash_and_credit"), total, amountPaid).Ok? ==>
      && ToNumber(amountPaid).Some?
      && 0.0 <= ToNumber(amountPaid).value <= ToNumber(total).value
  {
    if PaymentSplit(Str("cash_and_credit"), total, amountPaid).Ok? {
      var a := ToNumber(amountPaid);
      assert a.Some? by { assert !IsNaN(amountPaid); }
      assert ToNumber(Num(0.0)) == Some(0.0);
      assert !Less(amountPaid, Num(0.0));
      assert a.value >= 0.0;
      assert !Less(total, amountPaid);
      assert a.value <= ToNumber(total).value;
    }
  }

  /** The cash-and-credit branch accepts every numeric amount paid from 0 up to the total,
      as `<` and `>` order the two values */
  lemma CashAndCreditAccepts(total: Value, amountPaid: Value)
    requires ToNumber(total).Some? && ToNumber(amountPaid).Some? && ToNumber(amountPaid).value >= 0.0
    requires !Less(total, amountPaid)
    ensures PaymentSplit(Str("cash_and_credit"), total, amountPaid)
      == Ok((amountPaid, Num(ToNumber(total).value - ToNumber(amountPaid).value)))
  {
  }

  /** A total of "9" with "10" paid passes both checks, since "9" sorts after "10" as text,
      and records a credit of -1. (The digits are parameters so that the solver reads the
      two strings step by step.) */
  lemma TextAmountsGiveNegativeCredit(nine: char, one: char, zero: char)
    requires nine == '9' && one == '1' && zero == '0'
    ensures !IsNaN(Str([nine])) && !LessEq(Str([nine]), Num(0.0))
    ensures PaymentSplit(Str("cash_and_credit"), Str([nine]), Str([one, zero])) == Ok((Str([one, zero]), Num(-1.0)))
  {
    var total, paid := Str([nine]), Str([one, zero]);
    NineReads(nine);
    TenReads(one, zero);
    NineSortsAfterTen(nine, one, zero);
    CashAndCreditAccepts(total, paid);
    assert ToNumber(total).value - ToNumber(paid).value == -1.0;
  }

  lemma NineSortsAfterTen(nine: char, one: char, zero: char)
    requires nine == '9' && one == '1' && zero == '0'
    ensures !Less(Str([nine]), Str([one, zero]))
  {
    assert [nine][0] == nine && [one, zero][0] == one;
  }

  /** `Number("9")` is 9 */
  lemma NineReads(nine: char)
    requires nine == '9'
    ensures ToNumber(Str([nine])) == Some(9.0)
  {
    OneDigitValue(nine);
    DigitTextReads([nine]);
  }

  /** `Number("10")` is 10 */
  lemma TenReads(one: char, zero: char)
    requires one == '1' && zero == '0'
    ensures ToNumber(Str([one, zero])) == Some(10.0)
  {
    TwoDigitsValue(one, zero);
    DigitTextReads([one, zero]);
  }

  lemma OneDigitValue(a: char)
    requires IsDigit(a)
    ensures AllDigits([a]) && DigitsValue([a]) == DigitValue(a)
  {
    assert [a][..0] == [];
  }

  lemma TwoDigitsValue(a: char, b: char)
    requires IsDigit(a) && IsDigit(b)
    ensures AllDigits([a, b]) && DigitsValue([a, b]) == 10 * DigitValue(a) + DigitValue(b)
  {
    assert [a, b][..1] == [a];
    OneDigitValue(a);
  }

  /** Amounts in whole cents are stored exactly, so the stored parts add up to the stored total */
  lemma StoredSplitExactOnCents(paymentMethod: Value, total: int, amountPaid: int)
    ensures var t := Num(total as real / 100.0);
      PaymentSplit(paymentMethod, t, Num(amountPaid as real / 100.0)).Ok? ==>
      var (paid, credit) := PaymentSplit(paymentMethod, t, Num(amountPaid as real / 100.0)).value;
      ParseFloatOrDefault(paid, 0.0) + ParseFloatOrDefault(credit, 0.0) == ParseFloatOrDefault(t, 0.0)
  {
    ToFixed2OfCents(total);
    ToFixed2OfCents(amountPaid);
    ToFixed2OfCents(total - amountPaid);
    ToFixed2OfCents(0);
    assert total as real / 100.0 - amountPaid as real / 100.0 == (total - amountPaid) as real / 100.0;
  }

  /** With fractions of a cent each part is rounded on its own: a total of 0.01 with 0.005
      paid stores 0.01 paid and 0.01 credit */
  lemma HalfCentSplitOverstates()
    ensures var (paid, credit) := PaymentSplit(Str("cash_and_credit"), Num(0.01), Num(0.005)).value;
      && ParseFloatOrDefault(paid, 0.0) == 0.01
      && ParseFloatOrDefault(credit, 0.0) == 0.01
      && ParseFloatOrDefault(Num(0.01), 0.0) == 0.01
  {
    assert (0.005 * 100.0 + 0.5).Floor == 1;
    assert (0.01 * 100.0 + 0.5).Floor == 1;
  }

  // ------------------------------------------------------------------ receiving stock

  /** Units of one product over a run of items */
  function Added(items: seq<ParsedItem>, product: int): int
  {
    if items == [] then 0
    else (if items[0].productId == product then items[0].addedStock else 0) + Added(items[1..], product)
  }

  lemma {:induction false} AddedNonNegative(items: seq<ParsedItem>, product: int)
    requires forall i :: 0 <= i < |items| ==> items[i].addedStock > 0
    ensures Added(items, product) >= 0
  {
    if items != [] {
      AddedNonNegative(items[1..], product);
    }
  }

  /** One step of the loop: the first item's entry, then the rest of the loop on the
      updated products table */
  lemma ReceiveStep(products: map<int, Product>, items: seq<ParsedItem>, d: Delivery)
    requires items != [] && Receive(products, items, d).Ok?
    ensures var item := items[0];
      var p := products[item.productId];
      var expiry := if p.tracksExpiry then item.expiryDate else Null;
      var next := products[item.productId := p.(stock := p.stock + item.addedStock,
                                                  expiry := if p.tracksExpiry then expiry else p.expiry)];
      var rest := Receive(next, items[1..], d.(nextId := d.nextId + 1));
      && item.productId in products
      && rest.Ok?
      && Receive(products, items, d).value == (rest.value.0, [EntryFor(item, expiry, d)] + rest.value.1)
  {
  }

  /** The loop writes one entry per item, numbered from the next entry id, under the
      invoice, for the item's product and units; every item names a known product */
  lemma {:induction false} ReceiveEntries(products: map<int, Product>, items: seq<ParsedItem>, d: Delivery)
    requires Receive(products, items, d).Ok?
    ensures var (ps, es) := Receive(products, items, d).value;
      && ps.Keys == products.Keys
      && |es| == |items|
      && (forall i :: 0 <= i < |items| ==> items[i].productId in products)
      && (forall i :: 0 <= i < |es| ==>
            && es[i].id == d.nextId + i
            && es[i].invoice == Some(d.invoice)
            && es[i].product == items[i].productId
            && es[i].added == Num(items[i].addedStock as real))
    decreases |items|
  {
    if items != [] {
      ReceiveStep(products, items, d);
      var item := items[0];
      var p := products[item.productId];
      var expiry := if p.tracksExpiry then item.expiryDate else Null;
      var next := products[item.productId := p.(stock := p.stock + item.addedStock,
                                                  expiry := if p.tracksExpiry then expiry else p.expiry)];
      ReceiveEntries(next, items[1..], d.(nextId := d.nextId + 1));
      forall i | 0 < i < |items|
        ensures items[i] == items[1..][i - 1]
      {
      }
    }
  }

  /** Each entry the loop writes is the row for its item: the purchase date, payment method,
      vendor and clock of the delivery, and the item's expiry date when its product tracks
      one; every item's product belongs to the vendor and has an expiry date when tracked */
  lemma {:induction false} ReceiveEntryRows(products: map<int, Product>, items: seq<ParsedItem>, d: Delivery)
    requires Receive(products, items, d).Ok?
    ensures var es := Receive(products, items, d).value.1;
      && |es| == |items|
      && (forall i :: 0 <= i < |items| ==>
            && items[i].productId in products
            && products[items[i].productId].vendor == Some(d.vendor)
            && (products[items[i].productId].tracksExpiry ==> Truthy(items[i].expiryDate))
            && es[i] == EntryFor(items[i],
                 if products[items[i].productId].tracksExpiry then items[i].expiryDate else Null,
                 d.(nextId := d.nextId + i)))
    decreases |items|
  {
    if items != [] {
      ReceiveStep(products, items, d);
      var item := items[0];
      var p := products[item.productId];
      var expiry := if p.tracksExpiry then item.expiryDate else Null;
      var next := products[item.productId := p.(stock := p.stock + item.addedStock,
                                                  expiry := if p.tracksExpiry then expiry else p.expiry)];
      var d' := d.(nextId := d.nextId + 1);
      ReceiveEntryRows(next, items[1..], d');
      var rest := Receive(next, items[1..], d').value.1;
      assert Receive(products, items, d).value.1 == [EntryFor(item, expiry, d)] + rest;
      forall i | 0 < i < |items|
        ensures items[i] == items[1..][i - 1]
        ensures items[i].productId in products
        ensures products[items[i].productId] == next[items[i].productId].(stock := products[items[i].productId].stock,
                                                                       expiry := products[items[i].productId].expiry)
        ensures d'.(nextId := d'.nextId + (i - 1)) == d.(nextId := d.nextId + i)
      {
      }
    }
  }

  /** Each product's stock rises by the units received for it, and its new entries add up
      to those same units */
  lemma {:induction false} ReceiveUnits(products: map<int, Product>, items: seq<ParsedItem>, d: Delivery, id: int)
    requires Receive(products, items, d).Ok?
    requires id in products
    ensures var (ps, es) := Receive(products, items, d).value;
      && id in ps
      && ps[id].stock == products[id].stock + Added(items, id)
      && StockSum(es, id) == Added(items, id) as real
    decreases |items|
  {
    if items != [] {
      ReceiveStep(products, items, d);
      var item := items[0];
      var p := products[item.productId];
      var expiry := if p.tracksExpiry then item.expiryDate else Null;
      var next := products[item.productId := p.(stock := p.stock + item.addedStock,
                                                  expiry := if p.tracksExpiry then expiry else p.expiry)];
      var d' := d.(nextId := d.nextId + 1);
      ReceiveUnits(next, items[1..], d', id);
      ReceiveEntries(next, items[1..], d');
      var rest := Receive(next, items[1..], d').value.1;
      StockSumAppend([EntryFor(item, expiry, d)], rest, id);
      assert [EntryFor(item, expiry, d)][..0] == [];
    }
  }

  /** What the loop leaves in one product's row: only the stock and the expiry date change;
      an untracked product keeps its expiry date, a tracked one takes the date of the last
      item received for it, and a product no item names is left as it was */
  lemma {:induction false} ReceiveProduct(products: map<int, Product>, items: seq<ParsedItem>, d: Delivery, id: int)
    requires Receive(products, items, d).Ok?
    requires id in products
    ensures var ps := Receive(products, items, d).value.0;
      && id in ps
      && ps[id] == products[id].(stock := ps[id].stock, expiry := ps[id].expiry)
      && (!products[id].tracksExpiry ==> ps[id].expiry == products[id].expiry)
      && ((forall i :: 0 <= i < |items| ==> items[i].productId != id) ==> ps[id] == products[id])
      && (forall j :: 0 <= j < |items| && items[j].productId == id && LastFor(items, j) ==>
            ps[id].expiry == (if products[id].tracksExpiry then items[j].expiryDate else products[id].expiry))
    decreases |items|
  {
    if items != [] {
      ReceiveStep(products, items, d);
      var item := items[0];
      var p := products[item.productId];
      var expiry := if p.tracksExpiry then item.expiryDate else Null;
      var next := products[item.productId := p.(stock := p.stock + item.addedStock,
                                                  expiry := if p.tracksExpiry then expiry else p.expiry)];
      var d' := d.(nextId := d.nextId + 1);
      var rest := items[1..];
      ReceiveProduct(next, rest, d', id);
      assert Receive(products, items, d).value.0 == Receive(next, rest, d').value.0;
      var ps := Receive(next, rest, d').value.0;
      if forall i :: 0 <= i < |items| ==> items[i].productId != id {
        assert forall i :: 0 <= i < |rest| ==> rest[i] == items[i + 1];
        assert next[id] == products[id];
      }
      forall j | 0 <= j < |items| && items[j].productId == id && LastFor(items, j)
        ensures ps[id].expiry == (if products[id].tracksExpiry then items[j].expiryDate else products[id].expiry)
      {
        if j == 0 {
          assert forall i :: 0 <= i < |rest| ==> rest[i] == items[i + 1];
          assert forall i :: 0 <= i < |rest| ==> rest[i].productId != id by {
            forall i | 0 <= i < |rest|
              ensures rest[i].productId != id
            {
              assert rest[i] == items[i + 1];
            }
          }
        } else {
          assert rest[j - 1] == items[j];
          assert LastFor(rest, j - 1) by {
            forall i | j - 1 < i < |rest|
              ensures rest[i].productId != rest[j - 1].productId
            {
              assert rest[i] == items[i + 1];
            }
          }
        }
      }
    }
  }

  /** No item after the `j`th names the same product */
  predicate LastFor(items: seq<ParsedItem>, j: int)
    requires 0 <= j < |items|
  {
    forall i :: j < i < |items| ==> items[i].productId != items[j].productId
  }

  // ------------------------------------------------------------------ the whole request

  /** A refused request changes nothing; an accepted one answers 201 with the request's own
      invoice number, stores the invoice under the next id with the rounded amounts and no
      due date, and appends one stock entry per item */
  lemma RecordPurchaseEffect(s: Db, req: PurchaseRequest, now: nat, random: real)
    requires 0.0 <= random < 1.0
    ensures var (s', reply) := RecordPurchase(s, req, now, random);
      && (reply.Refused? ==> s' == s && reply.status == StatusOf(reply.error))
      && (reply.Done? ==>
            var h := CheckPurchase(s, req).value;
            var inv := s'.purchases[s.nextPurchaseId];
            && CheckPurchase(s, req).Ok?
            && reply == Done(201, PurchaseReceipt(s.nextPurchaseId, req.invoiceNumber))
            && s'.purchases == s.purchases[s.nextPurchaseId := inv]
            && inv == PurchaseInvoice(req.invoiceNumber, h.vendor, req.purchaseDate,
                 ParseFloatOrDefault(req.totalBillAmount, 0.0), req.paymentMethod,
                 ParseFloatOrDefault(h.paid, 0.0), ParseFloatOrDefault(h.credit, 0.0), Null, Null)
            && |s'.entries| == |s.entries| + |h.items|
            && s'.entries[..|s.entries|] == s.entries
            && (forall i :: 0 <= i < |h.items| ==>
                  && h.items[i].productId in s.products
                  && s'.entries[|s.entries| + i] == EntryFor(h.items[i],
                       if s.products[h.items[i].productId].tracksExpiry then h.items[i].expiryDate else Null,
                       Delivery(s.nextPurchaseId, h.vendor, req.purchaseDate, req.paymentMethod, now, s.nextEntryId + i)))
            && s'.products.Keys == s.products.Keys
            && (forall id :: id in s.products ==>
                  && s'.products[id].stock == s.products[id].stock + Added(h.items, id)
                  && s'.products[id] == s.products[id].(stock := s'.products[id].stock, expiry := s'.products[id].expiry)
                  && (!s.products[id].tracksExpiry ==> s'.products[id].expiry == s.products[id].expiry))
            && s'.nextPurchaseId == s.nextPurchaseId + 1
            && s'.nextEntryId == s.nextEntryId + |h.items|
            && s'.sales == s.sales && s'.saleItems == s.saleItems && s'.payments == s.payments
            && s'.vendors == s.vendors && s'.customers == s.customers && s'.nextSaleId == s.nextSaleId)
  {
    var (s', reply) := RecordPurchase(s, req, now, random);
    if reply.Done? {
      var h := CheckPurchase(s, req).value;
      var d := Delivery(s.nextPurchaseId, h.vendor, req.purchaseDate, req.paymentMethod, now, s.nextEntryId);
      var number := Or(req.invoiceNumber, Str(GenerateInvoiceNumber(now, random)));
      var (ps, es) := Receive(s.products, h.items, d).value;
      assert s' == Admitted(s, NewInvoice(req, h, number), ps, es);
      AdmittedReceipt(s, NewInvoice(req, h, number), h.items, d);
    }
  }

  /** The products table and the entries once the received items are committed */
  lemma AdmittedReceipt(s: Db, inv: PurchaseInvoice, items: seq<ParsedItem>, d: Delivery)
    requires Receive(s.products, items, d).Ok? && d.nextId == s.nextEntryId
    ensures var (ps, es) := Receive(s.products, items, d).value;
      var t := Admitted(s, inv, ps, es);
      && |t.entries| == |s.entries| + |items|
      && t.entries[..|s.entries|] == s.entries
      && (forall i :: 0 <= i < |items| ==>
            && items[i].productId in s.products
            && t.entries[|s.entries| + i] == EntryFor(items[i],
                 if s.products[items[i].productId].tracksExpiry then items[i].expiryDate else Null,
                 d.(nextId := s.nextEntryId + i)))
      && t.products.Keys == s.products.Keys
      && (forall id :: id in s.products ==>
            && t.products[id].stock == s.products[id].stock + Added(items, id)
            && t.products[id] == s.products[id].(stock := t.products[id].stock, expiry := t.products[id].expiry)
            && (!s.products[id].tracksExpiry ==> t.products[id].expiry == s.products[id].expiry))
  {
    ReceiveEntries(s.products, items, d);
    ReceiveEntryRows(s.products, items, d);
    var (ps, es) := Receive(s.products, items, d).value;
    var t := Admitted(s, inv, ps, es);
    assert (s.entries + es)[..|s.entries|] == s.entries;
    forall i | 0 <= i < |items|
      ensures t.entries[|s.entries| + i] == es[i]
    {
    }
    forall id | id in s.products
      ensures t.products[id].stock == s.products[id].stock + Added(items, id)
      ensures t.products[id] == s.products[id].(stock := t.products[id].stock, expiry := t.products[id].expiry)
      ensures !s.products[id].tracksExpiry ==> t.products[id].expiry == s.products[id].expiry
    {
      ReceiveUnits(s.products, items, d, id);
      ReceiveProduct(s.products, items, d, id);
    }
  }

  /** A tracked product's expiry date after an accepted purchase is that of the last item
      received for it, and a product no item names keeps its whole row */
  lemma RecordPurchaseExpiry(s: Db, req: PurchaseRequest, now: nat, random: real, id: int)
    requires 0.0 <= random < 1.0
    requires RecordPurchase(s, req, now, random).1.Done? && id in s.products
    ensures var s' := RecordPurchase(s, req, now, random).0;
      var items := CheckPurchase(s, req).value.items;
      && id in s'.products
      && ((forall i :: 0 <= i < |items| ==> items[i].productId != id) ==> s'.products[id] == s.products[id])
      && (forall j :: 0 <= j < |items| && items[j].productId == id && LastFor(items, j) ==>
            s'.products[id].expiry == (if s.products[id].tracksExpiry then items[j].expiryDate else s.products[id].expiry))
  {
    var h := CheckPurchase(s, req).value;
    var d := Delivery(s.nextPurchaseId, h.vendor, req.purchaseDate, req.paymentMethod, now, s.nextEntryId);
    ReceiveProduct(s.products, h.items, d, id);
    assert RecordPurchase(s, req, now, random).0.products == Receive(s.products, h.items, d).value.0;
  }

  /** Generated invoice numbers are never used: an accepted request always carries its own,
      so the result does not depend on the random draw */
  lemma RecordPurchaseIgnoresRandom(s: Db, req: PurchaseRequest, now: nat, r1: real, r2: real)
    requires 0.0 <= r1 < 1.0 && 0.0 <= r2 < 1.0
    ensures RecordPurchase(s, req, now, r1) == RecordPurchase(s, req, now, r2)
  {
  }

  /** A bank transfer purchase is never recorded */
  lemma BankTransferRefused(s: Db, req: PurchaseRequest, now: nat, random: real)
    requires 0.0 <= random < 1.0
    requires req.paymentMethod == Str("bank_transfer")
    ensures RecordPurchase(s, req, now, random).1.Refused?
    ensures RecordPurchase(s, req, now, random).0 == s
  {
    if CheckPurchase(s, req).Ok? {
      CheckedPaymentSplit(s, req);
      PaymentSplitMethods(req.paymentMethod, req.totalBillAmount, req.amountPaid);
    }
  }

  /** The handler never reads the items' prices, so it cannot compare the caller's total
      with them: repricing every item leaves the recorded invoice, its total included, and
      the response as they were */
  lemma ItemPricesIgnored(s: Db, req: PurchaseRequest, prices: seq<(Value, Value)>, now: nat, random: real)
    requires 0.0 <= random < 1.0
    requires req.products.Some? && |prices| == |req.products.value|
    ensures var items := req.products.value;
      var repriced := req.(products := Some(seq(|items|, i requires 0 <= i < |items| =>
                             items[i].(purchasePrice := prices[i].0, sellPrice := prices[i].1))));
      RecordPurchase(s, repriced, now, random) == RecordPurchase(s, req, now, random)
  {
    var items := req.products.value;
    var others := seq(|items|, i requires 0 <= i < |items| =>
                    items[i].(purchasePrice := prices[i].0, sellPrice := prices[i].1));
    assert seq(|others|, i requires 0 <= i < |others| => ParseItem(others[i], i))
        == seq(|items|, i requires 0 <= i < |items| => ParseItem(items[i], i));
  }

  /** A request that passes the checks has a numeric total and a payment split that succeeded */
  lemma CheckedPaymentSplit(s: Db, req: PurchaseRequest)
    requires CheckPurchase(s, req).Ok?
    ensures ToNumber(req.totalBillAmount).Some?
    ensures PaymentSplit(req.paymentMethod, req.totalBillAmount, req.amountPaid).Ok?
  {
  }

  /** Every item that passes the checks adds a positive number of units */
  lemma CheckPurchaseItems(s: Db, req: PurchaseRequest)
    ensures CheckPurchase(s, req).Ok? ==>
      forall i :: 0 <= i < |CheckPurchase(s, req).value.items| ==> CheckPurchase(s, req).value.items[i].addedStock > 0
  {
    ParseProductFieldsEffect(req.products);
  }

  /** Recording a purchase keeps the tables consistent */
  lemma RecordPurchaseConsistent(s: Db, req: PurchaseRequest, now: nat, random: real)
    requires 0.0 <= random < 1.0
    requires Consistent(s)
    ensures Consistent(RecordPurchase(s, req, now, random).0)
  {
    var (s', reply) := RecordPurchase(s, req, now, random);
    if reply.Done? {
      var h := CheckPurchase(s, req).value;
      var d := Delivery(s.nextPurchaseId, h.vendor, req.purchaseDate, req.paymentMethod, now, s.nextEntryId);
      CheckPurchaseItems(s, req);
      ReceiveEntries(s.products, h.items, d);
      var (ps, es) := Receive(s.products, h.items, d).value;
      forall id | id in ps
        ensures ps[id].stock >= 0
      {
        AddedNonNegative(h.items, id);
        ReceiveUnits(s.products, h.items, d, id);
      }
      var number := Or(req.invoiceNumber, Str(GenerateInvoiceNumber(now, random)));
      assert s' == Admitted(s, NewInvoice(req, h, number), ps, es);
      AppendPurchaseConsistent(s, ps, NewInvoice(req, h, number), es);
    }
  }

  /** Storing a new purchase invoice under the next id, with entries that point at it and
      take the next entry ids, and stock that stays non-negative, keeps the tables consistent */
  lemma AppendPurchaseConsistent(s: Db, ps: map<int, Product>, inv: PurchaseInvoice, es: seq<StockEntry>)
    requires Consistent(s)
    requires forall id :: id in ps ==> ps[id].stock >= 0
    requires forall i :: 0 <= i < |es| ==> es[i].id == s.nextEntryId + i && es[i].invoice == Some(s.nextPurchaseId)
    ensures Consistent(Admitted(s, inv, ps, es))
  {
    var s' := Admitted(s, inv, ps, es);
    forall i | 0 <= i < |s'.entries|
      ensures s'.entries[i].id < s'.nextEntryId
      ensures s'.entries[i].invoice.Some? ==> s'.entries[i].invoice.value in s'.purchases
    {
      if i >= |s.entries| {
        assert s'.entries[i] == es[i - |s.entries|];
      } else {
        assert s'.entries[i] == s.entries[i];
      }
    }
    forall i | 0 <= i < |s'.payments|
      ensures Refers(s', s'.payments[i])
    {
      assert Refers(s, s.payments[i]);
    }
  }

  /** Received stock is recorded twice, as entries and in the product's stock, so the
      difference between a product's entry total and its stock does not change */
  lemma RecordPurchaseKeepsStockBalance(s: Db, req: PurchaseRequest, now: nat, random: real, id: int)
    requires 0.0 <= random < 1.0
    requires id in s.products
    ensures var s' := RecordPurchase(s, req, now, random).0;
      id in s'.products &&
      StockSum(s'.entries, id) - s'.products[id].stock as real == StockSum(s.entries, id) - s.products[id].stock as real
  {
    var (s', reply) := RecordPurchase(s, req, now, random);
    if reply.Done? {
      var h := CheckPurchase(s, req).value;
      var d := Delivery(s.nextPurchaseId, h.vendor, req.purchaseDate, req.paymentMethod, now, s.nextEntryId);
      ReceiveUnits(s.products, h.items, d, id);
      StockSumAppend(s.entries, Receive(s.products, h.items, d).value.1, id);
    }
  }

  // ------------------------------------------------------------------ paying credit

  /** A refused payment changes nothing. An accepted one moves the amount from the rounded
      credit to the rounded paid amount, leaves a non-negative credit that it returns, keeps
      the due date, logs the payment against the invoice and touches no other invoice. */
  lemma PayPurchaseCreditEffect(s: Db, req: PurchasePayment)
    ensures var (s', reply) := PayPurchaseCredit(s, req);
      && (reply.Refused? ==> s' == s)
      && (reply.Done? ==>
            var k := ParseInt(Str(req.invoiceId)).value;
            var inv := s.purchases[k];
            var inv' := s'.purchases[k];
            && req.amountPaid.Num? && req.amountPaid.x > 0.0 && Truthy(req.paymentDate)
            && k in s.purchases && k in s'.purchases
            && reply == Done(200, inv'.credit)
            && inv'.paid + inv'.credit == ToFixed2(inv.paid) + ToFixed2(inv.credit)
            && inv'.paid == ToFixed2(inv.paid) + req.amountPaid.x
            && inv'.credit >= 0.0
            && inv'.dueDate == inv.dueDate && inv'.total == inv.total
            && inv'.lastPaymentDate == req.paymentDate
            && s'.purchases.Keys == s.purchases.Keys
            && (forall j :: j in s.purchases && j != k ==> s'.purchases[j] == s.purchases[j])
            && Logged(s'.payments, k, PurchaseKind) == Logged(s.payments, k, PurchaseKind) + req.amountPaid.x
            && s'.products == s.products && s'.entries == s.entries && s'.sales == s.sales)
  {
    var (s', reply) := PayPurchaseCredit(s, req);
    if reply.Done? {
      var k := ParseInt(Str(req.invoiceId)).value;
      LoggedAppend(s.payments, CreditPayment(k, PurchaseKind, req.amountPaid.x, req.paymentDate), k, PurchaseKind);
    }
  }

  /** An amount above the rounded credit is refused with 400 */
  lemma PayPurchaseCreditExceeds(s: Db, req: PurchasePayment, k: int)
    requires req.amountPaid.Num? && req.amountPaid.x > 0.0 && Truthy(req.paymentDate)
    requires ParseInt(Str(req.invoiceId)) == Some(k) && k in s.purchases
    ensures req.amountPaid.x > ToFixed2(s.purchases[k].credit) <==>
      PayPurchaseCredit(s, req) == (s, Refused(400, ExceedsCredit))
  {
  }

  /** A refused purchase payment changes nothing; its error and status tell which check
      failed, in the handler's order: the amount, the date, the id, the invoice, the credit */
  lemma PayPurchaseCreditRefused(s: Db, req: PurchasePayment)
    requires PayPurchaseCredit(s, req).1.Refused?
    ensures var (t, reply) := PayPurchaseCredit(s, req);
      var amountOk := req.amountPaid.Num? && req.amountPaid.x > 0.0;
      var key := ParseInt(Str(req.invoiceId));
      && t == s
      && (reply == Refused(400, InvalidAmount) <==> !amountOk)
      && (reply == Refused(400, MissingPaymentDate) <==> amountOk && !Truthy(req.paymentDate))
      && (reply == Refused(500, ServerError) <==> amountOk && Truthy(req.paymentDate) && key.None?)
      && (reply == Refused(404, InvoiceNotFound) <==>
            amountOk && Truthy(req.paymentDate) && key.Some? && key.value !in s.purchases)
      && (reply.status == 400 <==>
            !amountOk || !Truthy(req.paymentDate)
            || (key.Some? && key.value in s.purchases
                && req.amountPaid.x > ParseFloatOrDefault(Num(s.purchases[key.value].credit), 0.0)))
  {
  }

  /** Paying purchase credit keeps the tables consistent */
  lemma PayPurchaseCreditConsistent(s: Db, req: PurchasePayment)
    requires Consistent(s)
    ensures Consistent(PayPurchaseCredit(s, req).0)
  {
    var (s', reply) := PayPurchaseCredit(s, req);
    if reply.Done? {
      forall i | 0 <= i < |s'.payments|
        ensures Refers(s', s'.payments[i])
      {
        if i < |s.payments| {
          assert s'.payments[i] == s.payments[i];
          assert Refers(s, s.payments[i]);
        }
      }
    }
  }
}
