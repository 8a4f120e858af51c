/** The dialog that pays off a purchase invoice's credit through
    `PUT /stock-purchases/:id/pay-credit`. The amount starts at the whole outstanding credit.
    A smaller amount is a partial payment, and a partial payment needs a new due date. The
    dialog's state is a class whose methods are its input handlers, and `Submit` is proved
    against the function that says what the dialog sends. */
module PurchaseCreditModal {
  import opened Js
  import opened Ledger
  import StockPurchases

  /** The body the dialog sends */
  datatype CreditPayload = CreditPayload(amountPaid: real, paymentDate: Value, newCreditDueDate: Option<Value>)

  /** Why the dialog refuses to send */
  datatype ModalError = AmountRejected | MissingNewDueDate

  /** `parseFloat(amountToPay) < initialCreditAmount`; NaN compares false */
  predicate IsPartial(amount: Value, outstanding: real)
  {
    ParseFloat(amount).Some? && ParseFloat(amount).value < outstanding
  }

  /** `handleSubmit`: the amount check, the due-date check of a partial payment, and the
      body, which carries the new due date only for a partial payment */
  function Submission(amount: Value, outstanding: real, partial: bool, date: Value, newDue: Value): Result<CreditPayload, ModalError>
  {
    var parsed := ParseFloat(amount);
    if parsed.None? || parsed.value <= 0.0 || parsed.value > outstanding then Err(AmountRejected)
    else if partial && !Truthy(newDue) then Err(MissingNewDueDate)
    else Ok(CreditPayload(parsed.value, date, if partial then Some(newDue) else None))
  }

  /** The request the route sees: the invoice id comes from the path, and the route reads
      no new due date */
  function AsPayment(id: string, p: CreditPayload): StockPurchases.PurchasePayment
  {
    StockPurchases.PurchasePayment(id, Num(p.amountPaid), p.paymentDate)
  }

  /** The dialog's state once its mount effect has set the payment date to today */
  class PayCreditDialog {
    const outstanding: real
    var amountToPay: Value
    var paymentDate: Value
    var isPartial: bool
    var newCreditDueDate: Value

    /** The partial-payment flag follows the amount, as the dialog's effect keeps it */
    ghost predicate Valid()
      reads this
    {
      isPartial == IsPartial(amountToPay, outstanding)
    }

    constructor (creditAmount: Value, today: Value)
      ensures Valid()
      ensures outstanding == ParseFloatOrZero(creditAmount)
      ensures amountToPay == Num(outstanding) && paymentDate == today
      ensures !isPartial && newCreditDueDate == Str("")
    {
      outstanding := ParseFloatOrZero(creditAmount);
      amountToPay := Num(ParseFloatOrZero(creditAmount));
      paymentDate := today;
      isPartial := false;
      newCreditDueDate := Str("");
    }

    /** The amount input, followed by the effect that recomputes the partial-payment flag */
    method ChangeAmount(input: Value)
      requires Valid()
      modifies this
      ensures Valid()
      ensures amountToPay == input
      ensures paymentDate == old(paymentDate) && newCreditDueDate == old(newCreditDueDate)
    {
      amountToPay := input;
      var parsed := ParseFloat(input);
      isPartial := parsed.Some? && parsed.value < outstanding;
    }

    /** The payment date input */
    method ChangePaymentDate(input: Value)
      requires Valid()
      modifies this
      ensures Valid()
      ensures paymentDate == input
      ensures amountToPay == old(amountToPay) && isPartial == old(isPartial)
      ensures newCreditDueDate == old(newCreditDueDate)
    {
      paymentDate := input;
    }

    /** The new due date input */
    method ChangeNewDueDate(input: Value)
      requires Valid()
      modifies this
      ensures Valid()
      ensures newCreditDueDate == input
      ensures amountToPay == old(amountToPay) && isPartial == old(isPartial)
      ensures paymentDate == old(paymentDate)
    {
      newCreditDueDate := input;
    }

    /** `handleSubmit`: the body to send, or why the dialog refuses */
    method Submit() returns (r: Result<CreditPayload, ModalError>)
      requires Valid()
      ensures r == Submission(amountToPay, outstanding, IsPartial(amountToPay, outstanding), paymentDate, newCreditDueDate)
    {
      var parsed := ParseFloat(amountToPay);
      if parsed.None? || parsed.value <= 0.0 || parsed.value > outstanding {
        return Err(AmountRejected);
      }
      if isPartial && !Truthy(newCreditDueDate) {
        return Err(MissingNewDueDate);
      }
      var due := if isPartial then Some(newCreditDueDate) else None;
      return Ok(CreditPayload(parsed.value, paymentDate, due));
    }
  }

  // ---------------------------------------------------------------- lemmas

  /** The dialog sends exactly when the amount reads as a number above zero and within the
      outstanding credit and, for a partial payment, a new due date is given; the body holds
      that amount, the date, and the new due date exactly when the payment is partial */
  lemma SubmissionSpec(amount: Value, outstanding: real, date: Value, newDue: Value)
    ensures var r := Submission(amount, outstanding, IsPartial(amount, outstanding), date, newDue);
      var a := ParseFloat(amount);
      && (r.Ok? <==>
            a.Some? && 0.0 < a.value <= outstanding && (a.value < outstanding ==> Truthy(newDue)))
      && (r == Err(MissingNewDueDate) <==>
            a.Some? && 0.0 < a.value < outstanding && !Truthy(newDue))
      && (r.Ok? ==>
            && r.value.amountPaid == a.value && r.value.paymentDate == date
            && (r.value.newCreditDueDate.Some? <==> r.value.amountPaid < outstanding)
            && (r.value.newCreditDueDate.Some? ==> r.value.newCreditDueDate.value == newDue))
  {
  }

  /** Sending the dialog as it opens pays the whole outstanding credit with no new due date;
      with nothing outstanding it is refused */
  lemma OpeningAmountPaysAll(creditAmount: Value, today: Value)
    ensures var o := ParseFloatOrZero(creditAmount);
      Submission(Num(o), o, IsPartial(Num(o), o), today, Str("")) ==
        if o > 0.0 then Ok(CreditPayload(o, today, None)) else Err(AmountRejected)
  {
  }

  /** The dialog does not look at the payment date: whether it sends does not depend on it */
  lemma DateNotChecked(amount: Value, outstanding: real, partial: bool, date: Value, other: Value, newDue: Value)
    ensures Submission(amount, outstanding, partial, date, newDue).Ok? ==
            Submission(amount, outstanding, partial, other, newDue).Ok?
  {
  }

  /** What the route does with body `p` for stored invoice `k`: it answers with the credit
      less the amount, stores that credit, and keeps the invoice's due date */
  ghost predicate SettledBy(s: Db, id: string, k: int, p: CreditPayload)
    requires k in s.purchases
  {
    var (t, reply) := StockPurchases.PayPurchaseCredit(s, AsPayment(id, p));
    && reply == Done(200, s.purchases[k].credit - p.amountPaid)
    && k in t.purchases && t.purchases[k].credit == s.purchases[k].credit - p.amountPaid
    && t.purchases[k].dueDate == s.purchases[k].dueDate
  }

  /** A payment the dialog sends for a stored invoice whose credit it was shown is accepted
      by the route when the date is filled in: the credit drops by the amount and never
      below zero, and the invoice keeps its due date, since the route ignores the new one.
      The dialog shows the stored credit, which the route rounds to cents: stored amounts
      already are */
  lemma AcceptedPaymentSettles(s: Db, id: string, k: int, amount: Value, date: Value, newDue: Value)
    requires ParseInt(Str(id)) == Some(k) && k in s.purchases
    requires ToFixed2(s.purchases[k].credit) == s.purchases[k].credit
    requires Truthy(date)
    requires var o := s.purchases[k].credit;
      Submission(amount, o, IsPartial(amount, o), date, newDue).Ok?
    ensures var o := s.purchases[k].credit;
      var p := Submission(amount, o, IsPartial(amount, o), date, newDue).value;
      && SettledBy(s, id, k, p) && o - p.amountPaid >= 0.0
  {
    var o := s.purchases[k].credit;
    var p := Submission(amount, o, IsPartial(amount, o), date, newDue).value;
    SentWithinCredit(amount, o, IsPartial(amount, o), date, newDue);
    PaymentWithinCreditSettles(s, id, k, p);
  }

  /** A body the dialog sends pays a positive amount within the credit, on the given date */
  lemma SentWithinCredit(amount: Value, outstanding: real, partial: bool, date: Value, newDue: Value)
    requires Submission(amount, outstanding, partial, date, newDue).Ok?
    ensures var p := Submission(amount, outstanding, partial, date, newDue).value;
      0.0 < p.amountPaid <= outstanding && p.paymentDate == date
  {
  }

  /** The route's side of `AcceptedPaymentSettles`, for any body within the stored credit */
  lemma PaymentWithinCreditSettles(s: Db, id: string, k: int, p: CreditPayload)
    requires ParseInt(Str(id)) == Some(k) && k in s.purchases
    requires ToFixed2(s.purchases[k].credit) == s.purchases[k].credit
    requires 0.0 < p.amountPaid <= s.purchases[k].credit && Truthy(p.paymentDate)
    ensures SettledBy(s, id, k, p)
  {
    var req := AsPayment(id, p);
    var inv := s.purchases[k];
    var paid := StockPurchases.ParseFloatOrDefault(Num(inv.paid), 0.0);
    assert StockPurchases.ParseFloatOrDefault(Num(inv.credit), 0.0) == inv.credit;
    assert StockPurchases.PayPurchaseCredit(s, req) ==
      (StockPurchases.PurchaseSettled(s, k, paid, inv.credit, p.amountPaid, p.paymentDate),
       Done(200, inv.credit - p.amountPaid));
  }

  /** A payment sent after the date field was cleared passes the dialog and is refused by
      the route */
  lemma ClearedDateRefused(s: Db, id: string, amount: Value, outstanding: real, newDue: Value)
    requires Submission(amount, outstanding, IsPartial(amount, outstanding), Str(""), newDue).Ok?
    ensures var p := Submission(amount, outstanding, IsPartial(amount, outstanding), Str(""), newDue).value;
      StockPurchases.PayPurchaseCredit(s, AsPayment(id, p)) == (s, Refused(400, MissingPaymentDate))
  {
  }
}
