/** The credit routes: paying off part of a sale invoice's credit
    (`POST /sell-records/pay-credit`), the payment history of an invoice
    (`GET /credit-payments/:invoiceId`) and a customer's sale invoices
    (`GET /credit-records/sale-invoices`). */
module Credit {
  import opened Js
  import opened Ledger
  import opened Utils
  import Sales

  /** The body of `POST /sell-records/pay-credit` */
  datatype SalePayment = SalePayment(
    recordId: Value,
    paymentAmount: Value,
    paymentDate: Value,
    newCreditDueDate: Value)

  /** The sale invoice `WHERE id = ?` finds */
  function SaleKey(s: Db, id: Value): (r: Option<int>)
    ensures r.Some? ==> r.value in s.sales
  {
    match AsKey(id)
    case Some(k) => if k in s.sales then Some(k) else None
    case None => None
  }

  /** `x + y` where x is a normalised column (a number or null) and y a number */
  function NumOrZero(v: Value): real
  {
    if v.Num? then v.x else 0.0
  }

  /** What the handler reads of an invoice: its paid and credit columns, normalised */
  function PaidOf(inv: SaleInvoice): Value
  {
    NormalizeField("amount_paid", inv.paid)
  }

  function CreditOf(inv: SaleInvoice): Value
  {
    NormalizeField("credit_amount", inv.credit)
  }

  /** The tables after the request, and the response: the remaining credit on success */
  function PaySaleCredit(s: Db, req: SalePayment): (Db, Reply<real, CreditError>)
  {
    if !req.paymentAmount.Num? || req.paymentAmount.x <= 0.0 then (s, Refused(400, InvalidAmount))
    else if !Truthy(req.paymentDate) then (s, Refused(400, MissingPaymentDate))
    else match SaleKey(s, req.recordId)
      case None => (s, Refused(404, InvoiceNotFound))
      case Some(k) =>
        var inv := s.sales[k];
        var amount := req.paymentAmount.x;
        var credit := CreditOf(inv);
        if Less(credit, Num(amount)) then
          // the refusal message prints the credit with toFixed, which throws on null
          if credit.Num? then (s, Refused(400, ExceedsCredit)) else (s, Refused(500, ServerError))
        else (Settled(s, k, PaidOf(inv), credit, req), Done(200, NumOrZero(credit) - amount))
  }

  /** The tables after an accepted payment: the amount moves from credit to paid, the due
      date follows the remaining credit, and the payment is logged */
  function Settled(s: Db, k: int, paid: Value, credit: Value, req: SalePayment): Db
    requires k in s.sales && req.paymentAmount.Num?
  {
    var inv := s.sales[k];
    var amount := req.paymentAmount.x;
    var newPaid := NumOrZero(paid) + amount;
    var newCredit := NumOrZero(credit) - amount;
    var due :=
      if newCredit > 0.0 && Truthy(req.newCreditDueDate) then req.newCreditDueDate
      else if newCredit <= 0.0 then Null
      else inv.dueDate;
    s.(sales := s.sales[k := inv.(paid := Num(newPaid), credit := Num(newCredit), dueDate := due)],
       payments := s.payments + [CreditPayment(k, SaleKind, amount, req.paymentDate)])
  }

  /** The invoice row the handler reads back, normalised, holds the paid and credit
      amounts as `PaidOf` and `CreditOf` give them */
  lemma NormalizedAmounts(inv: SaleInvoice)
    ensures var r := Normalized(map["amount_paid" := inv.paid, "credit_amount" := inv.credit]);
      && "amount_paid" in r && "credit_amount" in r
      && r["amount_paid"] == PaidOf(inv) && r["credit_amount"] == CreditOf(inv)
  {
  }

  /** The route handler */
  method PaySaleCreditHandler(db: Database, req: SalePayment) returns (reply: Reply<real, CreditError>)
    modifies db
    ensures (db.State(), reply) == PaySaleCredit(old(db.State()), req)
  {
    if !req.paymentAmount.Num? || req.paymentAmount.x <= 0.0 {
      return Refused(400, InvalidAmount);
    }
    if !Truthy(req.paymentDate) {
      return Refused(400, MissingPaymentDate);
    }
    var s := db.State();
    var key := SaleKey(s, req.recordId);
    if key.None? {
      return Refused(404, InvoiceNotFound);
    }
    var k := key.value;
    var inv := s.sales[k];
    var paid, credit := ReadAmounts(inv);
    var amount := req.paymentAmount.x;
    if Less(credit, Num(amount)) {
      if credit.Num? {
        return Refused(400, ExceedsCredit);
      }
      return Refused(500, ServerError);
    }
    assert PaySaleCredit(s, req) == (Settled(s, k, paid, credit, req), Done(200, NumOrZero(credit) - amount));
    db.Commit(Settled(s, k, paid, credit, req));
    reply := Done(200, NumOrZero(credit) - amount);
  }

  /** The invoice row read back and passed through `parseNumericFields` */
  method ReadAmounts(inv: SaleInvoice) returns (paid: Value, credit: Value)
    ensures paid == PaidOf(inv) && credit == CreditOf(inv)
  {
    var row := ParseNumericFields(Some(map["amount_paid" := inv.paid, "credit_amount" := inv.credit]));
    NormalizedAmounts(inv);
    paid, credit := row.value["amount_paid"], row.value["credit_amount"];
  }

  /** The amount still owed on an invoice, and the amount collected, as the handler reads them */
  function Outstanding(s: Db, k: int): real
    requires k in s.sales
  {
    NumOrZero(CreditOf(s.sales[k]))
  }

  function Collected(s: Db, k: int): real
    requires k in s.sales
  {
    NumOrZero(PaidOf(s.sales[k]))
  }

  // ---------------------------------------------------------------- lemmas

  /** An accepted payment moves exactly its amount from credit to paid, never past zero
      credit, and answers with the credit that remains */
  lemma PaySaleCreditBalance(s: Db, req: SalePayment)
    requires PaySaleCredit(s, req).1.Done?
    ensures var (t, reply) := PaySaleCredit(s, req);
      var k := AsKey(req.recordId).value;
      var amount := req.paymentAmount.x;
      && AsKey(req.recordId).Some? && k in s.sales && k in t.sales
      && amount > 0.0
      && CreditOf(s.sales[k]).Num? && amount <= CreditOf(s.sales[k]).x
      && Outstanding(t, k) == Outstanding(s, k) - amount
      && Collected(t, k) == Collected(s, k) + amount
      && Outstanding(t, k) + Collected(t, k) == Outstanding(s, k) + Collected(s, k)
      && Outstanding(t, k) >= 0.0
      && reply == Done(200, Outstanding(t, k))
  {
    PaySaleCreditAccepted(s, req);
    var k := SaleKey(s, req.recordId).value;
    WithinCredit(CreditOf(s.sales[k]), req.paymentAmount.x);
    SettledBalance(s, k, req);
  }

  /** An accepted payment passed every check and settled the invoice its record id names */
  lemma PaySaleCreditAccepted(s: Db, req: SalePayment)
    requires PaySaleCredit(s, req).1.Done?
    ensures req.paymentAmount.Num? && req.paymentAmount.x > 0.0 && Truthy(req.paymentDate)
    ensures SaleKey(s, req.recordId).Some? && AsKey(req.recordId) == SaleKey(s, req.recordId)
    ensures var k := SaleKey(s, req.recordId).value;
      var credit := CreditOf(s.sales[k]);
      && !Less(credit, Num(req.paymentAmount.x))
      && PaySaleCredit(s, req)
         == (Settled(s, k, PaidOf(s.sales[k]), credit, req), Done(200, NumOrZero(credit) - req.paymentAmount.x))
  {
  }

  /** Settling a payment the credit covers moves its amount from credit to paid */
  lemma SettledBalance(s: Db, k: int, req: SalePayment)
    requires k in s.sales && req.paymentAmount.Num? && req.paymentAmount.x > 0.0
    requires CreditOf(s.sales[k]).Num? && req.paymentAmount.x <= CreditOf(s.sales[k]).x
    ensures var t := Settled(s, k, PaidOf(s.sales[k]), CreditOf(s.sales[k]), req);
      var amount := req.paymentAmount.x;
      && k in t.sales
      && Outstanding(t, k) == Outstanding(s, k) - amount
      && Collected(t, k) == Collected(s, k) + amount
      && Outstanding(t, k) + Collected(t, k) == Outstanding(s, k) + Collected(s, k)
      && Outstanding(t, k) >= 0.0
      && Outstanding(t, k) == NumOrZero(CreditOf(s.sales[k])) - amount
  {
    SettledAmounts(s, k, PaidOf(s.sales[k]), CreditOf(s.sales[k]), req);
  }

  /** A payment the credit check lets through is covered by a credit that is a number */
  lemma WithinCredit(credit: Value, amount: real)
    requires credit.Num? || credit.Null?
    requires amount > 0.0 && !Less(credit, Num(amount))
    ensures credit.Num? && amount <= credit.x
  {
  }

  /** After settling, the invoice's normalised amounts are the old ones moved by the payment */
  lemma SettledAmounts(s: Db, k: int, paid: Value, credit: Value, req: SalePayment)
    requires k in s.sales && req.paymentAmount.Num?
    ensures var t := Settled(s, k, paid, credit, req);
      && k in t.sales
      && PaidOf(t.sales[k]) == Num(NumOrZero(paid) + req.paymentAmount.x)
      && CreditOf(t.sales[k]) == Num(NumOrZero(credit) - req.paymentAmount.x)
  {
    NormalizeNumber("credit_amount", NumOrZero(credit) - req.paymentAmount.x);
    NormalizeNumber("amount_paid", NumOrZero(paid) + req.paymentAmount.x);
  }

  /** An accepted payment is logged against its invoice, and every other invoice and table
      is left alone */
  lemma PaySaleCreditEffect(s: Db, req: SalePayment)
    requires PaySaleCredit(s, req).1.Done?
    ensures var (t, reply) := PaySaleCredit(s, req);
      var k := AsKey(req.recordId).value;
      && AsKey(req.recordId).Some? && k in s.sales && t.sales.Keys == s.sales.Keys
      && Logged(t.payments, k, SaleKind) == Logged(s.payments, k, SaleKind) + req.paymentAmount.x
      && (forall j :: j in s.sales && j != k ==> t.sales[j] == s.sales[j])
      && t.products == s.products && t.purchases == s.purchases && t.entries == s.entries
  {
    var k := SaleKey(s, req.recordId).value;
    var inv := s.sales[k];
    var t := Settled(s, k, PaidOf(inv), CreditOf(inv), req);
    assert PaySaleCredit(s, req).0 == t;
    var entry := CreditPayment(k, SaleKind, req.paymentAmount.x, req.paymentDate);
    assert t.payments == s.payments + [entry];
    LoggedAppend(s.payments, entry, k, SaleKind);
  }

  /** The due date after a payment: the new one when credit remains and one is given,
      cleared when the credit is paid off, otherwise kept */
  lemma PaySaleCreditDueDate(s: Db, req: SalePayment)
    requires PaySaleCredit(s, req).1.Done?
    ensures var (t, reply) := PaySaleCredit(s, req);
      var k := AsKey(req.recordId).value;
      && k in t.sales
      && (reply.value > 0.0 && Truthy(req.newCreditDueDate) ==> t.sales[k].dueDate == req.newCreditDueDate)
      && (reply.value <= 0.0 ==> t.sales[k].dueDate == Null)
      && (reply.value > 0.0 && !Truthy(req.newCreditDueDate) ==> t.sales[k].dueDate == s.sales[k].dueDate)
  {
  }

  /** A refused payment changes nothing; its status tells which check failed */
  lemma PaySaleCreditRefused(s: Db, req: SalePayment)
    requires PaySaleCredit(s, req).1.Refused?
    ensures var (t, reply) := PaySaleCredit(s, req);
      && t == s
      && (reply.status == 400 <==>
            !req.paymentAmount.Num? || req.paymentAmount.x <= 0.0 || !Truthy(req.paymentDate)
            || (SaleKey(s, req.recordId).Some? && CreditOf(s.sales[SaleKey(s, req.recordId).value]).Num?))
      && (reply.status == 404 <==>
            req.paymentAmount.Num? && req.paymentAmount.x > 0.0 && Truthy(req.paymentDate)
            && SaleKey(s, req.recordId).None?)
  {
  }

  /** A payment keeps the tables consistent */
  lemma PaySaleCreditConsistent(s: Db, req: SalePayment)
    requires Consistent(s)
    ensures Consistent(PaySaleCredit(s, req).0)
  {
    var t := PaySaleCredit(s, req).0;
    if PaySaleCredit(s, req).1.Done? {
      assert t.sales.Keys == s.sales.Keys;
      forall i | 0 <= i < |t.payments|
        ensures Refers(t, t.payments[i])
      {
        if i < |s.payments| {
          assert Refers(s, s.payments[i]);
        }
      }
    }
  }

  /** Payments applied one after another against the tables */
  function PayAll(s: Db, reqs: seq<SalePayment>): Db
    decreases |reqs|
  {
    if reqs == [] then s else PayAll(PaySaleCredit(s, reqs[0]).0, reqs[1..])
  }

  /** However many payments are made, each invoice's credit never grows, never drops below
      zero once it is not negative, and credit plus paid stays what it was */
  lemma {:induction false} PayAllConserves(s: Db, reqs: seq<SalePayment>, k: int)
    requires k in s.sales
    ensures k in PayAll(s, reqs).sales
    ensures Outstanding(PayAll(s, reqs), k) <= Outstanding(s, k)
    ensures Outstanding(s, k) >= 0.0 ==> Outstanding(PayAll(s, reqs), k) >= 0.0
    ensures Outstanding(PayAll(s, reqs), k) + Collected(PayAll(s, reqs), k) == Outstanding(s, k) + Collected(s, k)
    decreases |reqs|
  {
    if reqs != [] {
      var (t, reply) := PaySaleCredit(s, reqs[0]);
      if reply.Done? {
        PaySaleCreditBalance(s, reqs[0]);
        PaySaleCreditEffect(s, reqs[0]);
        assert k in t.sales;
      }
      PayAllConserves(t, reqs[1..], k);
    }
  }

  /** One row of `GET /credit-payments/:invoiceId` */
  datatype PaymentView = PaymentView(date: Value, amount: real)

  /** The `type` query parameter, 'sale' when absent */
  function KindOf(kind: Value): Option<InvoiceKind>
  {
    match kind
    case Undefined => Some(SaleKind)
    case Str(t) => if t == "sale" then Some(SaleKind) else if t == "purchase" then Some(PurchaseKind) else None
    case _ => None
  }

  /** The payments logged against one invoice of one kind, with `parseFloat(amount) || 0`;
      the rows are taken in log order */
  function PaymentHistory(log: seq<CreditPayment>, invoiceId: Value, kind: Value): seq<PaymentView>
  {
    if log == [] then []
    else
      var last := log[|log| - 1];
      PaymentHistory(log[..|log| - 1], invoiceId, kind)
        + (if AsKey(invoiceId) == Some(last.invoice) && KindOf(kind) == Some(last.kind) then
             [PaymentView(last.date, ParseFloatOrZero(Num(last.amount)))]
           else [])
  }

  function SumViews(views: seq<PaymentView>): real
  {
    if views == [] then 0.0 else SumViews(views[..|views| - 1]) + views[|views| - 1].amount
  }

  lemma SumViewsAppend(a: seq<PaymentView>, b: seq<PaymentView>)
    ensures SumViews(a + b) == SumViews(a) + SumViews(b)
    decreases |b|
  {
    if b != [] {
      assert (a + b)[..|a + b| - 1] == a + b[..|b| - 1];
      assert (a + b)[|a + b| - 1] == b[|b| - 1];
      SumViewsAppend(a, b[..|b| - 1]);
    } else {
      assert a + b == a;
    }
  }

  /** The history shown for an invoice adds up to the payments logged against it, for any
      id the route is given that names the invoice (the path parameter arrives as text) */
  lemma {:induction false} HistoryAddsUp(log: seq<CreditPayment>, invoiceId: Value, k: int, kind: InvoiceKind, query: Value)
    requires AsKey(invoiceId) == Some(k)
    requires KindOf(query) == Some(kind)
    ensures SumViews(PaymentHistory(log, invoiceId, query)) == Logged(log, k, kind)
  {
    if log != [] {
      var last := log[|log| - 1];
      HistoryAddsUp(log[..|log| - 1], invoiceId, k, kind, query);
      var tail := if last.invoice == k && last.kind == kind then [PaymentView(last.date, last.amount)] else [];
      assert ParseFloatOrZero(Num(last.amount)) == last.amount;
      assert PaymentHistory(log, invoiceId, query) == PaymentHistory(log[..|log| - 1], invoiceId, query) + tail;
      SumViewsAppend(PaymentHistory(log[..|log| - 1], invoiceId, query), tail);
      assert SumViews(tail) == (if last.invoice == k && last.kind == kind then last.amount else 0.0) by {
        if tail != [] {
          assert tail[..0] == [];
        }
      }
    }
  }

  /** An accepted sale payment appears at the end of that invoice's history */
  lemma PaymentShowsInHistory(s: Db, req: SalePayment)
    requires PaySaleCredit(s, req).1.Done?
    ensures var t := PaySaleCredit(s, req).0;
      PaymentHistory(t.payments, req.recordId, Undefined)
        == PaymentHistory(s.payments, req.recordId, Undefined) + [PaymentView(req.paymentDate, req.paymentAmount.x)]
  {
    var t := PaySaleCredit(s, req).0;
    assert t.payments[..|t.payments| - 1] == s.payments;
  }

  /** `start_date` and `end_date` of the customer listing, as the moments the database reads
      them; None when the parameter is absent or empty */
  predicate InDateRange(d: nat, start: Option<nat>, end: Option<nat>)
  {
    if start.Some? && end.Some? then start.value <= d <= end.value
    else if start.Some? then start.value <= d
    else if end.Some? then d <= end.value
    else true
  }

  /** The invoices `GET /credit-records/sale-invoices` lists: 400 when the customer id does
      not parse, else the customer's invoices whose sale date is in range. The rows' order
      (newest first) and their normalised amounts are not part of this model. */
  function CustomerSaleInvoices(s: Db, customerId: Value, start: Option<nat>, end: Option<nat>): (r: Reply<set<int>, ()>)
    ensures r.Refused? <==> ParseInt(customerId).None?
    ensures r.Refused? ==> r.status == 400
    ensures r.Done? ==> r.status == 200 && r.value <= s.sales.Keys
  {
    match ParseInt(customerId)
    case None => Refused(400, ())
    case Some(c) =>
      Done(200, set k | k in s.sales && Selected(s.sales[k].customer, s.sales[k].date, c, start, end))
  }

  /** The listing's `WHERE` clause on one invoice's customer and sale date */
  predicate Selected(customer: Value, date: nat, c: int, start: Option<nat>, end: Option<nat>)
  {
    AsKey(customer) == Some(c) && InDateRange(date, start, end)
  }

  /** A range that contains another: each bound absent or at least as far out */
  predicate Widens(start: Option<nat>, end: Option<nat>, start': Option<nat>, end': Option<nat>)
  {
    && (start'.Some? ==> start.Some? && start'.value <= start.value)
    && (end'.Some? ==> end.Some? && end.value <= end'.value)
  }

  /** Both bounds are inclusive: an invoice of the customer is listed when a bound equals
      its sale's moment, including the range that starts and ends at that moment */
  lemma ListingBoundsInclusive(s: Db, customerId: Value, k: int)
    requires ParseInt(customerId).Some? && k in s.sales
    requires AsKey(s.sales[k].customer) == ParseInt(customerId)
    ensures var d := s.sales[k].date;
      && k in CustomerSaleInvoices(s, customerId, Some(d), None).value
      && k in CustomerSaleInvoices(s, customerId, None, Some(d)).value
      && k in CustomerSaleInvoices(s, customerId, Some(d), Some(d)).value
  {
  }

  /** Seconds in a day, the unit of the moments the listing compares */
  const SecondsPerDay: nat := 86400

  /** The moment the database reads a bare `YYYY-MM-DD` bound as: that day's midnight */
  function Midnight(day: nat): nat
  {
    day * SecondsPerDay
  }

  /** The bounds are bound as sent, with no time of day added: when the end date is a bare
      day, a sale made after midnight on that day is not listed, not even by the range that
      starts and ends on that day, while a start bound of that day does list it */
  lemma DateOnlyEndDropsSameDaySale(s: Db, customerId: Value, k: int, day: nat)
    requires ParseInt(customerId).Some? && k in s.sales
    requires AsKey(s.sales[k].customer) == ParseInt(customerId)
    requires Midnight(day) < s.sales[k].date < Midnight(day + 1)
    ensures k !in CustomerSaleInvoices(s, customerId, None, Some(Midnight(day))).value
    ensures k !in CustomerSaleInvoices(s, customerId, Some(Midnight(day)), Some(Midnight(day))).value
    ensures k in CustomerSaleInvoices(s, customerId, Some(Midnight(day)), None).value
  {
  }

  /** Widening the date range never drops an invoice from the listing */
  lemma ListingWidens(s: Db, customerId: Value, start: Option<nat>, end: Option<nat>, start': Option<nat>, end': Option<nat>)
    requires ParseInt(customerId).Some?
    requires Widens(start, end, start', end')
    ensures CustomerSaleInvoices(s, customerId, start, end).value <= CustomerSaleInvoices(s, customerId, start', end').value
  {
    forall k | k in CustomerSaleInvoices(s, customerId, start, end).value
      ensures k in CustomerSaleInvoices(s, customerId, start', end').value
    {
      assert InDateRange(s.sales[k].date, start', end');
    }
  }

  /** Without a date filter the listing holds every invoice of the customer, so every
      filtered listing is contained in it */
  lemma UnfilteredListingContainsAll(s: Db, customerId: Value, start: Option<nat>, end: Option<nat>)
    requires ParseInt(customerId).Some?
    ensures CustomerSaleInvoices(s, customerId, start, end).value <= CustomerSaleInvoices(s, customerId, None, None).value
  {
    ListingWidens(s, customerId, start, end, None, None);
  }

  /** Two customer ids that parse to different customers never share an invoice */
  lemma ListingsOfCustomersDisjoint(s: Db, a: Value, b: Value, start: Option<nat>, end: Option<nat>, start': Option<nat>, end': Option<nat>)
    requires ParseInt(a).Some? && ParseInt(b).Some? && ParseInt(a) != ParseInt(b)
    ensures CustomerSaleInvoices(s, a, start, end).value !! CustomerSaleInvoices(s, b, start', end').value
  {
    forall k | k in CustomerSaleInvoices(s, a, start, end).value
      ensures k !in CustomerSaleInvoices(s, b, start', end').value
    {
      assert AsKey(s.sales[k].customer) == ParseInt(a);
    }
  }

  /** The listing reads only each invoice's customer and sale date */
  lemma ListingReadsCustomerAndDate(s: Db, t: Db, customerId: Value, start: Option<nat>, end: Option<nat>)
    requires t.sales.Keys == s.sales.Keys
    requires forall j :: j in s.sales ==> t.sales[j].customer == s.sales[j].customer && t.sales[j].date == s.sales[j].date
    ensures CustomerSaleInvoices(t, customerId, start, end) == CustomerSaleInvoices(s, customerId, start, end)
  {
    if ParseInt(customerId).Some? {
      SelectionReadsCustomerAndDate(s.sales, t.sales, ParseInt(customerId).value, start, end);
    }
  }

  lemma SelectionReadsCustomerAndDate(m: map<int, SaleInvoice>, n: map<int, SaleInvoice>, c: int, start: Option<nat>, end: Option<nat>)
    requires n.Keys == m.Keys
    requires forall j :: j in m ==> n[j].customer == m[j].customer && n[j].date == m[j].date
    ensures (set k | k in n && Selected(n[k].customer, n[k].date, c, start, end))
         == (set k | k in m && Selected(m[k].customer, m[k].date, c, start, end))
  {
    var a := set k | k in n && Selected(n[k].customer, n[k].date, c, start, end);
    var b := set k | k in m && Selected(m[k].customer, m[k].date, c, start, end);
    forall k ensures k in a <==> k in b {
      if k in m {
        assert n[k].customer == m[k].customer && n[k].date == m[k].date;
      }
    }
  }

  /** Paying off sale credit changes amounts and due dates only: every customer's listing,
      over every range, is what it was */
  lemma PaymentKeepsListings(s: Db, req: SalePayment, customerId: Value, start: Option<nat>, end: Option<nat>)
    ensures CustomerSaleInvoices(PaySaleCredit(s, req).0, customerId, start, end)
         == CustomerSaleInvoices(s, customerId, start, end)
  {
    var (t, reply) := PaySaleCredit(s, req);
    if reply.Done? {
      var k := SaleKey(s, req.recordId).value;
      assert t == Settled(s, k, PaidOf(s.sales[k]), CreditOf(s.sales[k]), req);
      ListingReadsCustomerAndDate(s, t, customerId, start, end);
    }
  }

  /** A recorded sale is stored under the next sale id with the request's customer, or
      null when the request names none */
  lemma RecordSaleStoresCustomer(s: Db, req: Sales.SaleRequest, now: nat)
    requires Sales.RecordSale(s, req, now).1.Done?
    ensures var t := Sales.RecordSale(s, req, now).0;
      && s.nextSaleId in t.sales
      && t.sales[s.nextSaleId].customer == (if Truthy(req.customerId) then req.customerId else Null)
  {
    assert Sales.CheckSale(s, req).Ok?;
  }

  /** A sale recorded for a customer, given by a non-zero number, appears in that customer's
      listing when no date filter is given */
  lemma RecordedSaleIsListed(s: Db, req: Sales.SaleRequest, now: nat, c: int)
    requires Sales.RecordSale(s, req, now).1.Done?
    requires c != 0 && req.customerId == Num(c as real)
    ensures s.nextSaleId in CustomerSaleInvoices(Sales.RecordSale(s, req, now).0, Num(c as real), None, None).value
  {
    RecordSaleStoresCustomer(s, req, now);
    assert (c as real).Floor == c;
    assert AsKey(Num(c as real)) == Some(c);
    ParseIntOfInteger(c);
  }

  /** A sale recorded without a customer appears in no customer's listing */
  lemma AnonymousSaleIsUnlisted(s: Db, req: Sales.SaleRequest, now: nat, customer: Value, start: Option<nat>, end: Option<nat>)
    requires Sales.RecordSale(s, req, now).1.Done?
    requires !Truthy(req.customerId)
    ensures var r := CustomerSaleInvoices(Sales.RecordSale(s, req, now).0, customer, start, end);
      r.Done? ==> s.nextSaleId !in r.value
  {
    RecordSaleStoresCustomer(s, req, now);
  }
}
