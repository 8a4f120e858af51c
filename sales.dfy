/** `POST /sale-invoices`: checks the request, takes each line's quantity out of stock in
    order, checks the customer, then records the invoice and its lines. Any failure rolls
    the whole transaction back; the status is 404 when the error message says "not found"
    and 400 otherwise. */
module Sales {
  import opened Js
  import opened Ledger

  /** One element of the request's `products` array: product id and quantity */
  datatype SaleLine = SaleLine(id: int, quantity: int)

  /** The request body; `products` is None when it is missing or not an array */
  datatype SaleRequest = SaleRequest(
    invoiceNumber: Value,
    customerId: Value,
    products: Option<seq<SaleLine>>,
    totalPrice: Value,
    paymentType: Value,
    amountPaid: Value,
    creditAmount: Value)

  datatype SaleError =
    | MissingInvoiceNumber
    | MissingProducts
    | NonPositiveTotal
    | ProductNotFound(id: int)
    | InsufficientStock(name: string, available: int, requested: int)
    | CustomerMissing(customer: Value)

  /** The 201 body: the new invoice's id and the number it was recorded under */
  datatype SaleReceipt = SaleReceipt(invoiceId: int, invoiceNumber: Value)

  /** How a customer id is printed in a template literal. A number is printed through its
      integer part: the fractional digits of a non-integral id are not modelled. */
  function Display(v: Value): string
  {
    match v
    case Str(s) => s
    case Num(x) => IntText(Trunc(x))
    case Bool(b) => if b then "true" else "false"
    case Null => "null"
    case Undefined => "undefined"
  }

  /** The error message the handler throws */
  function Message(e: SaleError): string
  {
    match e
    case MissingInvoiceNumber => "Invoice number is required."
    case MissingProducts => "Products array is required and cannot be empty."
    case NonPositiveTotal => "Total bill amount must be greater than 0."
    case ProductNotFound(id) => "Product with ID " + IntText(id) + " not found."
    case InsufficientStock(name, available, requested) =>
      "Not enough stock for " + name + ". Available: " + IntText(available) + ", Requested: " + IntText(requested)
    case CustomerMissing(c) => "Customer with ID " + Display(c) + " does not exist."
  }

  /** The status of a failed request: chosen from the message text */
  function StatusOf(e: SaleError): int
  {
    if Contains(Message(e), "not found") then 404 else 400
  }

  /** `SELECT id FROM customers WHERE id = ?` finds a row */
  predicate CustomerExists(customers: set<int>, id: Value)
  {
    AsKey(id).Some? && AsKey(id).value in customers
  }

  /** The stock loop: each line in turn must name a product whose remaining stock is at
      least the line's quantity, which is then subtracted */
  function Withdraw(products: map<int, Product>, lines: seq<SaleLine>): Result<map<int, Product>, SaleError>
    decreases |lines|
  {
    if lines == [] then Ok(products)
    else
      var line := lines[0];
      if line.id !in products then Err(ProductNotFound(line.id))
      else
        var p := products[line.id];
        if p.stock < line.quantity then Err(InsufficientStock(p.name, p.stock, line.quantity))
        else Withdraw(products[line.id := p.(stock := p.stock - line.quantity)], lines[1..])
  }

  /** Total quantity the lines ask of one product */
  function Requested(lines: seq<SaleLine>, product: int): int
  {
    if lines == [] then 0
    else (if lines[0].id == product then lines[0].quantity else 0) + Requested(lines[1..], product)
  }

  /** The `sale_invoice_items` rows written for the lines, in order */
  function ItemRows(invoice: int, lines: seq<SaleLine>): (r: seq<SaleItem>)
    ensures |r| == |lines|
    ensures forall i :: 0 <= i < |lines| ==> r[i] == SaleItem(invoice, lines[i].id, lines[i].quantity)
  {
    if lines == [] then []
    else ItemRows(invoice, lines[..|lines| - 1]) + [SaleItem(invoice, lines[|lines| - 1].id, lines[|lines| - 1].quantity)]
  }

  /** Every check of the handler, in its order; on success, the products table after the
      stock loop */
  function CheckSale(s: Db, req: SaleRequest): (r: Result<map<int, Product>, SaleError>)
    ensures r.Ok? ==> Truthy(req.invoiceNumber) && req.products.Some? && req.products.value != []
    ensures r.Ok? ==> !LessEq(req.totalPrice, Num(0.0))
    ensures r.Ok? ==> Withdraw(s.products, req.products.value) == Ok(r.value)
    ensures r.Ok? ==> !Truthy(req.customerId) || CustomerExists(s.customers, req.customerId)
  {
    if !Truthy(req.invoiceNumber) then Err(MissingInvoiceNumber)
    else if req.products.None? || req.products.value == [] then Err(MissingProducts)
    else if LessEq(req.totalPrice, Num(0.0)) then Err(NonPositiveTotal)
    else match Withdraw(s.products, req.products.value)
      case Err(e) => Err(e)
      case Ok(stock) =>
        if Truthy(req.customerId) && !CustomerExists(s.customers, req.customerId) then
          Err(CustomerMissing(req.customerId))
        else Ok(stock)
  }

  /** The tables after the request, and the response */
  function RecordSale(s: Db, req: SaleRequest, now: nat): (Db, Reply<SaleReceipt, SaleError>)
  {
    match CheckSale(s, req)
    case Err(e) => (s, Refused(StatusOf(e), e))
    case Ok(stock) =>
      var id := s.nextSaleId;
      var customer := if Truthy(req.customerId) then req.customerId else Null;
      var invoice := SaleInvoice(req.invoiceNumber, customer, now, req.totalPrice, req.paymentType,
                                 req.amountPaid, req.creditAmount, Null);
      (s.(products := stock,
          sales := s.sales[id := invoice],
          saleItems := s.saleItems + ItemRows(id, req.products.value),
          nextSaleId := id + 1),
       Done(201, SaleReceipt(id, req.invoiceNumber)))
  }

  /** The route handler, with `NOW()` as a parameter */
  method RecordSaleInvoice(db: Database, req: SaleRequest, now: nat) returns (reply: Reply<SaleReceipt, SaleError>)
    modifies db
    ensures (db.State(), reply) == RecordSale(old(db.State()), req, now)
  {
    var s := db.State();
    if !Truthy(req.invoiceNumber) {
      return Refused(StatusOf(MissingInvoiceNumber), MissingInvoiceNumber);
    }
    if req.products.None? || req.products.value == [] {
      return Refused(StatusOf(MissingProducts), MissingProducts);
    }
    if LessEq(req.totalPrice, Num(0.0)) {
      return Refused(StatusOf(NonPositiveTotal), NonPositiveTotal);
    }
    var lines := req.products.value;
    var stock := s.products;
    var pending: seq<SaleLine> := [];
    var i := 0;
    while i < |lines|
      invariant 0 <= i <= |lines|
      invariant Withdraw(s.products, lines) == Withdraw(stock, lines[i..])
      invariant pending == lines[..i]
    {
      var line := lines[i];
      assert lines[i..][1..] == lines[i + 1..];
      if line.id !in stock {
        return Refused(StatusOf(ProductNotFound(line.id)), ProductNotFound(line.id));
      }
      var p := stock[line.id];
      if p.stock < line.quantity {
        var e := InsufficientStock(p.name, p.stock, line.quantity);
        return Refused(StatusOf(e), e);
      }
      pending := pending + [line];
      stock := stock[line.id := p.(stock := p.stock - line.quantity)];
      i := i + 1;
    }
    assert lines[i..] == [];
    assert pending == lines;
    var customer := Null;
    if Truthy(req.customerId) {
      if !CustomerExists(s.customers, req.customerId) {
        return Refused(StatusOf(CustomerMissing(req.customerId)), CustomerMissing(req.customerId));
      }
      customer := req.customerId;
    }
    var id := s.nextSaleId;
    var invoice := SaleInvoice(req.invoiceNumber, customer, now, req.totalPrice, req.paymentType,
                               req.amountPaid, req.creditAmount, Null);
    var items := s.saleItems;
    for j := 0 to |pending|
      invariant items == s.saleItems + ItemRows(id, pending[..j])
    {
      assert pending[..j + 1][..j] == pending[..j];
      items := items + [SaleItem(id, pending[j].id, pending[j].quantity)];
    }
    assert pending[..|pending|] == pending;
    db.Commit(s.(products := stock, sales := s.sales[id := invoice], saleItems := items, nextSaleId := id + 1));
    reply := Done(201, SaleReceipt(id, req.invoiceNumber));
  }

  // ---------------------------------------------------------------- lemmas

  /** From stock that is not negative, and with no negative quantities, the stock loop
      succeeds exactly when every line names a product and no product is asked for more
      than its stock in total */
  lemma {:induction false} WithdrawSucceedsIff(products: map<int, Product>, lines: seq<SaleLine>)
    requires forall p :: p in products ==> products[p].stock >= 0
    requires forall i :: 0 <= i < |lines| ==> lines[i].quantity >= 0
    ensures Withdraw(products, lines).Ok? <==>
      (forall i :: 0 <= i < |lines| ==> lines[i].id in products) &&
      (forall p :: p in products ==> Requested(lines, p) <= products[p].stock)
    decreases |lines|
  {
    if lines != [] {
      var line, rest := lines[0], lines[1..];
      assert forall i :: 0 < i < |lines| ==> lines[i] == rest[i - 1];
      RequestedNonNegative(rest, line.id);
      if line.id !in products {
        assert !(lines[0].id in products);
      } else if products[line.id].stock < line.quantity {
        assert Requested(lines, line.id) > products[line.id].stock;
      } else {
        var p := products[line.id];
        var next := products[line.id := p.(stock := p.stock - line.quantity)];
        WithdrawSucceedsIff(next, rest);
        assert Withdraw(products, lines) == Withdraw(next, rest);
        assert forall q :: q in products ==>
          (Requested(rest, q) <= next[q].stock <==> Requested(lines, q) <= products[q].stock);
        assert next.Keys == products.Keys;
        assert (forall q :: q in next ==> Requested(rest, q) <= next[q].stock) <==>
               (forall q :: q in products ==> Requested(lines, q) <= products[q].stock);
        assert (forall i :: 0 <= i < |rest| ==> rest[i].id in next) <==>
               (forall i :: 0 <= i < |lines| ==> lines[i].id in products) by {
          if forall i :: 0 <= i < |rest| ==> rest[i].id in next {
            forall i | 0 <= i < |lines|
              ensures lines[i].id in products
            {
              if i > 0 {
                assert lines[i] == rest[i - 1];
              }
            }
          }
        }
      }
    }
  }

  lemma {:induction false} RequestedNonNegative(lines: seq<SaleLine>, product: int)
    requires forall i :: 0 <= i < |lines| ==> lines[i].quantity >= 0
    ensures Requested(lines, product) >= 0
    decreases |lines|
  {
    if lines != [] {
      RequestedNonNegative(lines[1..], product);
    }
  }

  /** A successful stock loop lowers each product's stock by its total requested quantity
      and changes nothing else */
  lemma {:induction false} WithdrawEffect(products: map<int, Product>, lines: seq<SaleLine>)
    requires Withdraw(products, lines).Ok?
    ensures Withdraw(products, lines).value.Keys == products.Keys
    ensures forall p :: p in products ==>
      Withdraw(products, lines).value[p] == products[p].(stock := products[p].stock - Requested(lines, p))
    decreases |lines|
  {
    if lines != [] {
      var line := lines[0];
      var p := products[line.id];
      var next := products[line.id := p.(stock := p.stock - line.quantity)];
      WithdrawEffect(next, lines[1..]);
    }
  }

  /** The stock loop never leaves a product with negative stock */
  lemma {:induction false} WithdrawKeepsStock(products: map<int, Product>, lines: seq<SaleLine>)
    requires forall p :: p in products ==> products[p].stock >= 0
    requires Withdraw(products, lines).Ok?
    ensures forall p :: p in Withdraw(products, lines).value ==> Withdraw(products, lines).value[p].stock >= 0
    decreases |lines|
  {
    if lines != [] {
      var line := lines[0];
      var p := products[line.id];
      var next := products[line.id := p.(stock := p.stock - line.quantity)];
      WithdrawKeepsStock(next, lines[1..]);
    }
  }

  /** A line with a negative quantity passes the stock check and raises the stock */
  lemma NegativeQuantityRaisesStock(p: Product, id: int)
    requires p.stock >= 0
    ensures Withdraw(map[id := p], [SaleLine(id, -5)]) == Ok(map[id := p.(stock := p.stock + 5)])
  {
    var next := map[id := p][id := p.(stock := p.stock - -5)];
    assert next == map[id := p.(stock := p.stock + 5)];
    assert [SaleLine(id, -5)][1..] == [];
  }

  /** A recorded sale keeps the tables consistent */
  lemma RecordSaleConsistent(s: Db, req: SaleRequest, now: nat)
    requires Consistent(s)
    ensures Consistent(RecordSale(s, req, now).0)
  {
    if CheckSale(s, req).Ok? {
      var lines := req.products.value;
      WithdrawKeepsStock(s.products, lines);
      var t := RecordSale(s, req, now).0;
      assert forall i :: 0 <= i < |s.payments| ==> Refers(s, s.payments[i]) ==> Refers(t, s.payments[i]);
      forall i | 0 <= i < |t.saleItems|
        ensures t.saleItems[i].invoice in t.sales
      {
        if i >= |s.saleItems| {
          assert t.saleItems[i] == ItemRows(s.nextSaleId, lines)[i - |s.saleItems|];
        }
      }
    }
  }

  /** What a recorded sale writes: the invoice under the next id with the amounts exactly as
      sent (no check that paid and credit add up to the total, and no due date), one item row
      per line in the request's order, the id counter moved on, each product's stock lowered by
      its requested quantity with its other columns kept, and no other table touched */
  lemma RecordSaleEffect(s: Db, req: SaleRequest, now: nat)
    requires RecordSale(s, req, now).1.Done?
    ensures var (t, reply) := RecordSale(s, req, now);
      && reply == Done(201, SaleReceipt(s.nextSaleId, req.invoiceNumber))
      && Truthy(req.invoiceNumber) && req.products.Some? && req.products.value != []
      && !LessEq(req.totalPrice, Num(0.0))
      && Withdraw(s.products, req.products.value).Ok?
      && (!Truthy(req.customerId) || CustomerExists(s.customers, req.customerId))
      && t.sales == s.sales[s.nextSaleId := SaleInvoice(req.invoiceNumber,
           if Truthy(req.customerId) then req.customerId else Null, now, req.totalPrice,
           req.paymentType, req.amountPaid, req.creditAmount, Null)]
      && t.saleItems == s.saleItems + ItemRows(s.nextSaleId, req.products.value)
      && t.nextSaleId == s.nextSaleId + 1
      && t.products.Keys == s.products.Keys
      && (forall p :: p in s.products ==>
            t.products[p] == s.products[p].(stock := s.products[p].stock - Requested(req.products.value, p)))
      && t == s.(products := t.products, sales := t.sales, saleItems := t.saleItems, nextSaleId := t.nextSaleId)
  {
    WithdrawEffect(s.products, req.products.value);
  }

  /** A refused sale leaves every table as it was */
  lemma RecordSaleRefusedRollsBack(s: Db, req: SaleRequest, now: nat)
    requires RecordSale(s, req, now).1.Refused?
    ensures RecordSale(s, req, now).0 == s
    ensures CheckSale(s, req).Err?
    ensures RecordSale(s, req, now).1.status == (if Contains(Message(CheckSale(s, req).error), "not found") then 404 else 400)
  {
  }

  /** The stock loop fails only with an unknown product or a lack of stock */
  lemma {:induction false} WithdrawErrors(products: map<int, Product>, lines: seq<SaleLine>)
    requires Withdraw(products, lines).Err?
    ensures Withdraw(products, lines).error.ProductNotFound? || Withdraw(products, lines).error.InsufficientStock?
    decreases |lines|
  {
    var line := lines[0];
    if line.id in products && products[line.id].stock >= line.quantity {
      var p := products[line.id];
      WithdrawErrors(products[line.id := p.(stock := p.stock - line.quantity)], lines[1..]);
    }
  }

  /** Which requests the route refuses, and why: each check in the handler's order refuses
      exactly when the checks before it pass and its own condition holds; a request that
      passes them all is recorded, and a refused one changes nothing */
  lemma RecordSaleRefused(s: Db, req: SaleRequest, now: nat)
    ensures var (t, reply) := RecordSale(s, req, now);
      var named := Truthy(req.invoiceNumber);
      var listed := named && req.products.Some? && req.products.value != [];
      var priced := listed && !LessEq(req.totalPrice, Num(0.0));
      var stocked := priced && Withdraw(s.products, req.products.value).Ok?;
      var known := !Truthy(req.customerId) || CustomerExists(s.customers, req.customerId);
      && (reply.Refused? ==> t == s)
      && (reply == Refused(400, MissingInvoiceNumber) <==> !named)
      && (reply == Refused(400, MissingProducts) <==> named && !listed)
      && (reply == Refused(400, NonPositiveTotal) <==> listed && LessEq(req.totalPrice, Num(0.0)))
      && (reply.Refused? && (reply.error.ProductNotFound? || reply.error.InsufficientStock?) <==>
            priced && Withdraw(s.products, req.products.value).Err?)
      && (priced && Withdraw(s.products, req.products.value).Err? ==>
            var e := Withdraw(s.products, req.products.value).error;
            reply == Refused(StatusOf(e), e))
      && (reply == Refused(StatusOf(CustomerMissing(req.customerId)), CustomerMissing(req.customerId)) <==>
            stocked && !known)
      && (reply.Done? <==> stocked && known)
  {
    MissingInvoiceNumberStatus();
    MissingProductsStatus();
    NonPositiveTotalStatus();
    if Truthy(req.invoiceNumber) && req.products.Some? && req.products.value != []
       && !LessEq(req.totalPrice, Num(0.0)) && Withdraw(s.products, req.products.value).Err?
    {
      WithdrawErrors(s.products, req.products.value);
    }
  }

  /** With stock and quantities that are not negative, a sale request is recorded exactly
      when it has an invoice number, a non-empty products array, a positive total, a customer
      that is absent or exists, every line naming a product, and no product asked for more
      than its stock in total */
  lemma RecordSaleAcceptedIff(s: Db, req: SaleRequest, now: nat)
    requires forall p :: p in s.products ==> s.products[p].stock >= 0
    requires req.products.Some? ==>
      forall i :: 0 <= i < |req.products.value| ==> req.products.value[i].quantity >= 0
    ensures RecordSale(s, req, now).1.Done? <==>
      && Truthy(req.invoiceNumber) && req.products.Some? && req.products.value != []
      && !LessEq(req.totalPrice, Num(0.0))
      && (!Truthy(req.customerId) || CustomerExists(s.customers, req.customerId))
      && (forall i :: 0 <= i < |req.products.value| ==> req.products.value[i].id in s.products)
      && (forall p :: p in s.products ==> Requested(req.products.value, p) <= s.products[p].stock)
  {
    RecordSaleRefused(s, req, now);
    if req.products.Some? {
      WithdrawSucceedsIff(s.products, req.products.value);
    }
  }

  /** A request without an invoice number is refused with 400 and changes nothing */
  lemma MissingInvoiceNumberIs400(s: Db, req: SaleRequest, now: nat)
    requires !Truthy(req.invoiceNumber)
    ensures RecordSale(s, req, now) == (s, Refused(400, MissingInvoiceNumber))
  {
    MissingInvoiceNumberStatus();
  }

  /** Each of the three request checks answers 400 */
  lemma MissingInvoiceNumberStatus()
    ensures StatusOf(MissingInvoiceNumber) == 400
  {
    var a, b := "Invoice number ", "is required.";
    assert 'f' !in a && 'f' !in b;
    assert Message(MissingInvoiceNumber) == a + b;
    NotContainsWithoutChar(a + b, "not found", 'f');
  }

  /** A character in neither of two texts is not in their concatenation */
  lemma CharNotInJoin(a: string, b: string, ch: char)
    requires ch !in a && ch !in b
    ensures ch !in a + b
  {
    assert forall x :: x in a + b ==> x in a || x in b;
  }

  lemma MissingProductsStatus()
    ensures StatusOf(MissingProducts) == 400
  {
    var a, b := "Products array is required ", "and cannot be empty.";
    CharNotInJoin(a, b, 'f');
    assert Message(MissingProducts) == a + b;
    NotContainsWithoutChar(a + b, "not found", 'f');
  }

  lemma NonPositiveTotalStatus()
    ensures StatusOf(NonPositiveTotal) == 400
  {
    var m := Message(NonPositiveTotal);
    assert 'f' !in m;
    NotContainsWithoutChar(m, "not found", 'f');
  }

  /** A missing customer given by number answers 400 */
  lemma NumericCustomerMissingIs400(c: real)
    ensures StatusOf(CustomerMissing(Num(c))) == 400
  {
    var digits := NatText(if Trunc(c) < 0 then -Trunc(c) else Trunc(c));
    assert 'f' !in digits by {
      forall k | 0 <= k < |digits|
        ensures digits[k] != 'f'
      {
        assert IsDigit(digits[k]);
      }
    }
    var m := Message(CustomerMissing(Num(c)));
    if Trunc(c) < 0 {
      assert m == "Customer with ID " + ("-" + digits) + " does not exist.";
    } else {
      assert m == "Customer with ID " + digits + " does not exist.";
    }
    assert 'f' !in m;
    NotContainsWithoutChar(m, "not found", 'f');
  }

  /** An unknown product answers 404 */
  lemma UnknownProductIs404(id: int)
    ensures StatusOf(ProductNotFound(id)) == 404
  {
    ContainsMiddle("Product with ID " + IntText(id) + " ", "not found", ".");
    assert Message(ProductNotFound(id)) == "Product with ID " + IntText(id) + " " + "not found" + ".";
  }

  /** A lack of stock answers 404 instead of 400 when the product's name says "not found" */
  lemma StockShortageNamedNotFoundIs404(before: string, after: string, available: int, requested: int)
    ensures StatusOf(InsufficientStock(before + "not found" + after, available, requested)) == 404
  {
    var name := before + "not found" + after;
    var m := Message(InsufficientStock(name, available, requested));
    assert m == "Not enough stock for " + before + "not found"
      + (after + ". Available: " + IntText(available) + ", Requested: " + IntText(requested));
    ContainsMiddle("Not enough stock for " + before, "not found",
      after + ". Available: " + IntText(available) + ", Requested: " + IntText(requested));
  }
}
