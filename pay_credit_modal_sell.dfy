/** The dialog that pays off part of a sale invoice's credit through
    `POST /sell-records/pay-credit`. It checks the record id, the amount against the credit
    it was shown, and the payment date. A new due date is optional, even for a partial
    payment. The dialog's state is a class whose methods are its input handlers, and
    `Submit` is proved against the function that says what the dialog sends. */
module SaleCreditModal {
  import opened Js
  import opened Ledger
  import Credit

  /** The body the dialog sends: the record id and the payment fields */
  datatype SalePayload = SalePayload(recordId: Value, paymentAmount: real, paymentDate: Value, newCreditDueDate: Option<Value>)

  /** Why the dialog refuses to send */
  datatype ModalError = MissingRecordId | AmountRejected | MissingDate

  /** `handleSubmit`: the record id check, the amount check (`amount > invoice.credit_amount`
      compares with whatever the invoice holds), the date check, and the body, which carries
      a new due date only when one is given */
  function Submission(recordId: Value, creditAmount: Value, amount: Value, date: Value, newDue: Value): Result<SalePayload, ModalError>
  {
    if !Truthy(recordId) then Err(MissingRecordId)
    else
      var parsed := ParseFloat(amount);
      if parsed.None? || parsed.value <= 0.0 || Less(creditAmount, Num(parsed.value)) then Err(AmountRejected)
      else if !Truthy(date) then Err(MissingDate)
      else Ok(SalePayload(recordId, parsed.value, date, if Truthy(newDue) then Some(newDue) else None))
  }

  /** The request the route sees: a due date left out of the body reads as `undefined` */
  function AsPayment(p: SalePayload): Credit.SalePayment
  {
    Credit.SalePayment(p.recordId, Num(p.paymentAmount), p.paymentDate,
                       if p.newCreditDueDate.Some? then p.newCreditDueDate.value else Undefined)
  }

  /** The dialog's state for one invoice */
  class PayCreditDialog {
    const recordId: Value
    const creditAmount: Value
    var paymentAmount: Value
    var paymentDate: Value
    var newCreditDueDate: Value

    /** The dialog as it opens: no amount, today's date, no new due date */
    constructor (record: Value, credit: Value, today: Value)
      ensures recordId == record && creditAmount == credit
      ensures paymentAmount == Str("") && paymentDate == today && newCreditDueDate == Str("")
    {
      recordId := record;
      creditAmount := credit;
      paymentAmount := Str("");
      paymentDate := today;
      newCreditDueDate := Str("");
    }

    /** The amount input */
    method ChangeAmount(input: Value)
      modifies this
      ensures paymentAmount == input
      ensures paymentDate == old(paymentDate) && newCreditDueDate == old(newCreditDueDate)
    {
      paymentAmount := input;
    }

    /** The payment date input */
    method ChangePaymentDate(input: Value)
      modifies this
      ensures paymentDate == input
      ensures paymentAmount == old(paymentAmount) && newCreditDueDate == old(newCreditDueDate)
    {
      paymentDate := input;
    }

    /** The new due date input */
    method ChangeNewDueDate(input: Value)
      modifies this
      ensures newCreditDueDate == input
      ensures paymentAmount == old(paymentAmount) && paymentDate == old(paymentDate)
    {
      newCreditDueDate := input;
    }

    /** `handleSubmit`: the body to send, or why the dialog refuses */
    method Submit() returns (r: Result<SalePayload, ModalError>)
      ensures r == Submission(recordId, creditAmount, paymentAmount, paymentDate, newCreditDueDate)
    {
      if !Truthy(recordId) {
        return Err(MissingRecordId);
      }
      var amount := ParseFloat(paymentAmount);
      if amount.None? || amount.value <= 0.0 || Less(creditAmount, Num(amount.value)) {
        return Err(AmountRejected);
      }
      if !Truthy(paymentDate) {
        return Err(MissingDate);
      }
      var due := if Truthy(newCreditDueDate) then Some(newCreditDueDate) else None;
      return Ok(SalePayload(recordId, amount.value, paymentDate, due));
    }
  }

  // ---------------------------------------------------------------- lemmas

  /** The dialog sends exactly when the record id is set, the amount reads as a number above
      zero that does not exceed the credit, and a date is given; the body holds them, and
      the new due date exactly when one is given */
  lemma SubmissionSpec(recordId: Value, credit: real, amount: Value, date: Value, newDue: Value)
    ensures var r := Submission(recordId, Num(credit), amount, date, newDue);
      var a := ParseFloat(amount);
      && (r.Ok? <==> Truthy(recordId) && a.Some? && 0.0 < a.value <= credit && Truthy(date))
      && (r == Err(MissingRecordId) <==> !Truthy(recordId))
      && (r.Ok? ==>
            && r.value.recordId == recordId && r.value.paymentAmount == a.value
            && r.value.paymentDate == date
            && (r.value.newCreditDueDate.Some? <==> Truthy(newDue))
            && (r.value.newCreditDueDate.Some? ==> r.value.newCreditDueDate.value == newDue))
  {
  }

  /** The dialog as it opens refuses to send: the amount field is empty */
  lemma OpeningFormRefused(recordId: Value, credit: Value, today: Value)
    requires Truthy(recordId)
    ensures Submission(recordId, credit, Str(""), today, Str("")) == Err(AmountRejected)
  {
    assert ParseFloat(Str("")) == None by {
      assert TrimStart("") == "";
      assert DigitRun("") == 0;
      assert DecimalPrefix("") == (None, 0);
    }
  }

  /** When the invoice it was shown has no credit amount (`undefined`), the dialog puts no
      upper bound on the amount */
  lemma MissingCreditUnbounded(recordId: Value, amount: Value, date: Value, newDue: Value)
    requires Truthy(recordId) && Truthy(date)
    requires ParseFloat(amount).Some? && ParseFloat(amount).value > 0.0
    ensures Submission(recordId, Undefined, amount, date, newDue).Ok?
  {
  }

  /** What the route does with body `p` for stored invoice `k`: it answers with the credit
      less the amount, which is never below zero, and stores it; the due date becomes the
      new one when credit remains and one was given, is cleared when the credit is paid
      off, and is otherwise kept */
  ghost predicate SettledBy(s: Db, k: int, p: SalePayload)
    requires k in s.sales
  {
    var (t, reply) := Credit.PaySaleCredit(s, AsPayment(p));
    var remaining := Credit.Outstanding(s, k) - p.paymentAmount;
    var newDue := AsPayment(p).newCreditDueDate;
    && reply == Done(200, remaining) && remaining >= 0.0
    && k in t.sales && Credit.Outstanding(t, k) == remaining
    && t.sales[k].dueDate ==
         (if remaining > 0.0 && Truthy(newDue) then newDue
          else if remaining <= 0.0 then Null
          else s.sales[k].dueDate)
  }

  /** A payment the dialog sends for a stored invoice whose credit it was shown is accepted
      by the route and settles as `SettledBy` says, so a partial payment sent without a
      new due date keeps the old one */
  lemma AcceptedPaymentSettles(s: Db, k: int, recordId: Value, amount: Value, date: Value, newDue: Value)
    requires Credit.SaleKey(s, recordId) == Some(k)
    requires Submission(recordId, Credit.CreditOf(s.sales[k]), amount, date, newDue).Ok?
    ensures var p := Submission(recordId, Credit.CreditOf(s.sales[k]), amount, date, newDue).value;
      SettledBy(s, k, p)
  {
    var p := Submission(recordId, Credit.CreditOf(s.sales[k]), amount, date, newDue).value;
    SentWithinCredit(recordId, Credit.CreditOf(s.sales[k]), amount, date, newDue);
    PaymentWithinCreditSettles(s, k, p);
  }

  /** A body the dialog sends carries its record id, a positive amount the credit it was
      shown does not fall short of, and a date */
  lemma SentWithinCredit(recordId: Value, creditAmount: Value, amount: Value, date: Value, newDue: Value)
    requires Submission(recordId, creditAmount, amount, date, newDue).Ok?
    ensures var p := Submission(recordId, creditAmount, amount, date, newDue).value;
      && p.recordId == recordId && 0.0 < p.paymentAmount && Truthy(p.paymentDate)
      && !Less(creditAmount, Num(p.paymentAmount))
  {
  }

  /** The route's side of `AcceptedPaymentSettles`, for any body within the stored credit */
  lemma PaymentWithinCreditSettles(s: Db, k: int, p: SalePayload)
    requires Credit.SaleKey(s, p.recordId) == Some(k)
    requires 0.0 < p.paymentAmount && Truthy(p.paymentDate)
    requires !Less(Credit.CreditOf(s.sales[k]), Num(p.paymentAmount))
    ensures SettledBy(s, k, p)
  {
    Credit.PaySaleCreditBalance(s, AsPayment(p));
    Credit.PaySaleCreditDueDate(s, AsPayment(p));
  }
}
