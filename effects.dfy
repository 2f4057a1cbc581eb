/** How the two ledger actions move the dashboard: what adding a loan and
    recording a repayment do to each customer's summary row. */
module Effects {
  import opened Wrappers
  import opened Ledger
  import opened Summary

  /** A new loan (positive principal, no repayments) raises its customer's
      outstanding balance by its principal, makes that customer's status
      anything but Paid Up, and moves the next due date to the new due date
      when that comes earlier. */
  lemma {:induction false} AddLoanRaisesBalance(c: Customer, loans: seq<Loan>, l: Loan, now: Instant)
    requires l.customerId == c.id && l.amount > 0 && l.repayments == []
    ensures var before := Summarize(c, loans, now);
            var after := Summarize(c, loans + [l], now);
            && after.outstandingBalance == before.outstandingBalance + l.amount
            && after.status != PaidUp
            && after.nextDueDate
               == Some(if before.nextDueDate.Some? && before.nextDueDate.value <= l.dueDate
                       then before.nextDueDate.value else l.dueDate)
  {
    var cl := CustomerLoans(loans, c.id);
    CustomerLoansAppend(loans, l, c.id);
    assert CustomerLoans(loans + [l], c.id) == cl + [l];
    assert RemainingBalance(l) == l.amount;
    OutstandingBalanceAppend(cl, l);
    ActiveLoansAppend(cl, l);
    var active := ActiveLoans(cl);
    assert ActiveLoans(cl + [l]) == active + [l];
    assert (active + [l])[..|active|] == active;
  }

  /** A new loan leaves every other customer's row as it was. */
  lemma {:induction false} AddLoanOtherCustomers(c: Customer, loans: seq<Loan>, l: Loan, now: Instant)
    requires l.customerId != c.id
    ensures Summarize(c, loans + [l], now) == Summarize(c, loans, now)
  {
    CustomerLoansAppend(loans, l, c.id);
    assert CustomerLoans(loans + [l], c.id) == CustomerLoans(loans, c.id);
  }

  /** What recordRepayment records against the loans of customer cid: the
      clamped amounts of the matching loans that accept it. */
  function RecordedFor(loans: seq<Loan>, loanId: Id, requested: Money, cid: Id): (total: Money)
    ensures total >= 0
    ensures total > 0 <==> exists i :: 0 <= i < |loans| && loans[i].id == loanId
                                       && loans[i].customerId == cid && Accepts(loans[i], requested)
  {
    if loans == [] then 0
    else
      var last := loans[|loans| - 1];
      var init := loans[..|loans| - 1];
      assert forall i :: 0 <= i < |init| ==> init[i] == loans[i];
      RecordedFor(init, loanId, requested, cid)
        + (if last.id == loanId && last.customerId == cid && Accepts(last, requested)
           then AmountToRecord(last, requested) else 0)
  }

  /** On one loan, a repayment lowers what is owed by what it records. */
  lemma ApplyRepaymentOwed(l: Loan, requested: Money, date: Day)
    ensures Owed(ApplyRepayment(l, requested, date))
            == Owed(l) - (if Accepts(l, requested) then AmountToRecord(l, requested) else 0)
  {
  }

  /** Recording a repayment lowers each customer's outstanding balance by
      exactly what it recorded against that customer's loans. */
  lemma {:induction false} RepaymentLowersBalance(loans: seq<Loan>, loanId: Id, requested: Money, date: Day, cid: Id)
    ensures OutstandingBalance(CustomerLoans(RepayMatching(loans, loanId, requested, date), cid))
            == OutstandingBalance(CustomerLoans(loans, cid)) - RecordedFor(loans, loanId, requested, cid)
  {
    if loans != [] {
      var last := loans[|loans| - 1];
      var init := loans[..|loans| - 1];
      assert loans == init + [last];
      var repaid := RepayMatching(init, loanId, requested, date);
      var updated := if last.id == loanId then ApplyRepayment(last, requested, date) else last;
      assert RepayMatching(loans, loanId, requested, date) == repaid + [updated];
      var part := if last.id == loanId && last.customerId == cid && Accepts(last, requested)
                  then AmountToRecord(last, requested) else 0;
      assert RecordedFor(loans, loanId, requested, cid) == RecordedFor(init, loanId, requested, cid) + part;
      RepaymentLowersBalance(init, loanId, requested, date, cid);
      CustomerLoansAppend(init, last, cid);
      CustomerLoansAppend(repaid, updated, cid);
      assert updated.customerId == last.customerId;
      if last.customerId == cid {
        assert CustomerLoans(loans, cid) == CustomerLoans(init, cid) + [last];
        assert CustomerLoans(repaid + [updated], cid) == CustomerLoans(repaid, cid) + [updated];
        OutstandingBalanceAppend(CustomerLoans(init, cid), last);
        OutstandingBalanceAppend(CustomerLoans(repaid, cid), updated);
        if last.id == loanId {
          ApplyRepaymentOwed(last, requested, date);
        }
      } else {
        assert CustomerLoans(loans, cid) == CustomerLoans(init, cid);
        assert CustomerLoans(repaid + [updated], cid) == CustomerLoans(repaid, cid);
      }
    }
  }

  /** On the dashboard: a repayment never raises a balance, never changes the
      row of a customer it records nothing against, and a Paid Up customer
      stays Paid Up. */
  lemma RepaymentOnDashboard(c: Customer, loans: seq<Loan>, loanId: Id, requested: Money, date: Day, now: Instant)
    ensures var before := Summarize(c, loans, now);
            var after := Summarize(c, RepayMatching(loans, loanId, requested, date), now);
            && after.outstandingBalance <= before.outstandingBalance
            && (before.status == PaidUp ==> after.status == PaidUp)
            && (RecordedFor(loans, loanId, requested, c.id) == 0 ==>
                  after.outstandingBalance == before.outstandingBalance)
  {
    RepaymentLowersBalance(loans, loanId, requested, date, c.id);
  }
}
