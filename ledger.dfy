/** The records of the ledger and the rules on one loan: its remaining
    balance, whether it is overdue, and what recording a repayment does to it
    (src/App.tsx, the utility functions and the callback of recordRepayment). */
module Ledger {
  import opened Wrappers

  /** An amount of money in paise (hundredths of a rupee). */
  type Money = int
  /** A calendar date, as the number of days since 1970-01-01. */
  type Day = int
  /** A point in time, in milliseconds since 1970-01-01T00:00:00Z. */
  type Instant = int
  /** A record identifier (the source takes them from the clock). */
  type Id = int

  const MsPerDay: int := 86_400_000

  /** A date string such as '2025-05-15' denotes midnight UTC of that day. */
  function Midnight(d: Day): Instant {
    d * MsPerDay
  }

  datatype Customer = Customer(id: Id, name: string, email: string)

  datatype Repayment = Repayment(amount: Money, date: Day)

  datatype Loan = Loan(id: Id, customerId: Id, itemSold: string, amount: Money,
                       dueDate: Day, repayments: seq<Repayment>)

  /** The sum of the repayment amounts, added up from the first to the last
      as the source's reduce does; it cannot be negative when no repayment is. */
  function TotalRepaid(rs: seq<Repayment>): (total: Money)
    ensures (forall i :: 0 <= i < |rs| ==> rs[i].amount >= 0) ==> total >= 0
    ensures (forall i :: 0 <= i < |rs| ==> rs[i].amount > 0) ==> (total == 0 <==> rs == [])
  {
    if rs == [] then 0 else TotalRepaid(rs[..|rs| - 1]) + rs[|rs| - 1].amount
  }

  lemma TotalRepaidAppend(rs: seq<Repayment>, r: Repayment)
    ensures TotalRepaid(rs + [r]) == TotalRepaid(rs) + r.amount
  {
    assert (rs + [r])[..|rs|] == rs;
  }

  /** calculateRemainingBalance: principal minus everything repaid so far. A
      loan with no repayments owes its whole principal, and as long as no
      repayment is negative the balance never exceeds the principal. */
  function RemainingBalance(loan: Loan): (r: Money)
    ensures loan.repayments == [] ==> r == loan.amount
    ensures (forall i :: 0 <= i < |loan.repayments| ==> loan.repayments[i].amount >= 0) ==> r <= loan.amount
  {
    loan.amount - TotalRepaid(loan.repayments)
  }

  /** The ledger's invariant on one loan: a positive principal, positive
      repayments, and never more repaid than was lent. */
  predicate WellFormed(loan: Loan) {
    && loan.amount > 0
    && (forall i :: 0 <= i < |loan.repayments| ==> loan.repayments[i].amount > 0)
    && TotalRepaid(loan.repayments) <= loan.amount
  }

  /** On a well-formed loan the remaining balance lies between zero and the
      principal, and equals the principal exactly when nothing was repaid. */
  lemma RemainingBalanceBounds(loan: Loan)
    requires WellFormed(loan)
    ensures 0 <= RemainingBalance(loan) <= loan.amount
    ensures RemainingBalance(loan) == loan.amount <==> loan.repayments == []
  {
  }

  /** isLoanOverdue: money is still owed and the due date, read as midnight
      UTC, lies strictly before now. A loan with nothing left to pay is never
      overdue. */
  predicate IsOverdue(loan: Loan, now: Instant)
    ensures IsOverdue(loan, now) ==> RemainingBalance(loan) > 0
  {
    RemainingBalance(loan) > 0 && Midnight(loan.dueDate) < now
  }

  /** Because the due date is compared as its first instant, a loan with a
      balance is already overdue during its own due day, and never before. */
  lemma OverdueFromStartOfDueDay(loan: Loan, now: Instant)
    requires RemainingBalance(loan) > 0
    ensures IsOverdue(loan, now) <==> now > Midnight(loan.dueDate)
    ensures Midnight(loan.dueDate) < now < Midnight(loan.dueDate + 1) ==> IsOverdue(loan, now)
  {
  }

  /** As long as nothing changes in the loan, being overdue only ever starts. */
  lemma OverdueStaysOverdue(loan: Loan, now: Instant, later: Instant)
    requires IsOverdue(loan, now) && now <= later
    ensures IsOverdue(loan, later)
  {
  }

  /** Math.min(requested, remaining): an over-payment is cut down to the
      remaining balance and any other request is kept as it is. */
  function AmountToRecord(loan: Loan, requested: Money): (m: Money)
    ensures m <= requested && m <= RemainingBalance(loan)
    ensures m == requested || m == RemainingBalance(loan)
  {
    var remaining := RemainingBalance(loan);
    if requested < remaining then requested else remaining
  }

  /** The source records a repayment when the clamped amount is positive, so
      there are two reasons for rejection: a request that is not positive, or
      a loan that has nothing left to pay. */
  predicate Accepts(loan: Loan, requested: Money)
    ensures Accepts(loan, requested) <==> requested > 0 && RemainingBalance(loan) > 0
  {
    AmountToRecord(loan, requested) > 0
  }

  /** The clamp changes the request exactly when it exceeds the balance. */
  lemma ClampIff(loan: Loan, requested: Money)
    ensures AmountToRecord(loan, requested) == requested <==> requested <= RemainingBalance(loan)
  {
  }

  /** The callback recordRepayment applies to the loan it targets: either one
      repayment of the clamped amount is appended after the earlier ones, or,
      when rejected, the loan comes back identical. Nothing but the repayment
      list ever changes, and an accepted repayment never leaves a negative
      balance. */
  function ApplyRepayment(loan: Loan, requested: Money, date: Day): (r: Loan)
    ensures r.id == loan.id && r.customerId == loan.customerId && r.itemSold == loan.itemSold
    ensures r.amount == loan.amount && r.dueDate == loan.dueDate
    ensures requested > 0 && RemainingBalance(loan) > 0 ==>
              && r.repayments == loan.repayments + [Repayment(AmountToRecord(loan, requested), date)]
              && RemainingBalance(r) == RemainingBalance(loan) - AmountToRecord(loan, requested)
              && 0 <= RemainingBalance(r) < RemainingBalance(loan)
    ensures !(requested > 0 && RemainingBalance(loan) > 0) ==> r == loan
  {
    var amountToRecord := AmountToRecord(loan, requested);
    if amountToRecord <= 0 then loan
    else
      var repayments := loan.repayments + [Repayment(amountToRecord, date)];
      TotalRepaidAppend(loan.repayments, Repayment(amountToRecord, date));
      loan.(repayments := repayments)
  }

  /** Recording repayments keeps every well-formed loan well formed. */
  lemma ApplyRepaymentPreservesWellFormed(loan: Loan, requested: Money, date: Day)
    requires WellFormed(loan)
    ensures WellFormed(ApplyRepayment(loan, requested, date))
  {
    var r := ApplyRepayment(loan, requested, date);
    if requested > 0 && RemainingBalance(loan) > 0 {
      assert forall i :: 0 <= i < |loan.repayments| ==> r.repayments[i] == loan.repayments[i];
    }
  }

  /** A repayment never makes a loan overdue that was not overdue already. */
  lemma RepaymentNeverCausesOverdue(loan: Loan, requested: Money, date: Day, now: Instant)
    requires IsOverdue(ApplyRepayment(loan, requested, date), now)
    ensures IsOverdue(loan, now)
  {
  }

  /** The loans.map of recordRepayment: every loan whose id matches gets the
      callback, every other loan is kept, and the collection keeps its length
      and order. */
  function RepayMatching(loans: seq<Loan>, loanId: Id, requested: Money, date: Day): (r: seq<Loan>)
    ensures |r| == |loans|
    ensures forall i :: 0 <= i < |loans| ==>
              r[i] == if loans[i].id == loanId then ApplyRepayment(loans[i], requested, date) else loans[i]
  {
    if loans == [] then []
    else
      var last := loans[|loans| - 1];
      RepayMatching(loans[..|loans| - 1], loanId, requested, date)
        + [if last.id == loanId then ApplyRepayment(last, requested, date) else last]
  }

  /** Mapping one more loan appends its image. */
  lemma RepayMatchingAppend(loans: seq<Loan>, l: Loan, loanId: Id, requested: Money, date: Day)
    ensures RepayMatching(loans + [l], loanId, requested, date)
            == RepayMatching(loans, loanId, requested, date)
               + [if l.id == loanId then ApplyRepayment(l, requested, date) else l]
  {
    assert (loans + [l])[..|loans|] == loans;
  }

  /** The customer whose loan accepted the repayment last, if any: the source
      selects that customer's page from inside the map. When it is absent no
      matching loan accepted the payment; LastPayerOwner gives the converse
      and names the loan. */
  function LastPayer(loans: seq<Loan>, loanId: Id, requested: Money): (r: Option<Id>)
    ensures r.None? ==> forall i {:trigger Accepts(loans[i], requested)} ::
                           0 <= i < |loans| ==> !(loans[i].id == loanId && Accepts(loans[i], requested))
  {
    if loans == [] then None
    else
      var init := loans[..|loans| - 1];
      var last := loans[|loans| - 1];
      assert forall i :: 0 <= i < |init| ==> init[i] == loans[i];
      if last.id == loanId && Accepts(last, requested) then Some(last.customerId)
      else LastPayer(init, loanId, requested)
  }

  /** A selected customer is the owner of the last matching loan that
      accepted the payment: i is that loan's position. */
  lemma {:induction false} LastPayerOwner(loans: seq<Loan>, loanId: Id, requested: Money) returns (i: nat)
    requires LastPayer(loans, loanId, requested).Some?
    ensures i < |loans| && loans[i].id == loanId && Accepts(loans[i], requested)
    ensures loans[i].customerId == LastPayer(loans, loanId, requested).value
    ensures forall j :: i < j < |loans| ==> !(loans[j].id == loanId && Accepts(loans[j], requested))
  {
    var init := loans[..|loans| - 1];
    var last := loans[|loans| - 1];
    if last.id == loanId && Accepts(last, requested) {
      i := |loans| - 1;
    } else {
      i := LastPayerOwner(init, loanId, requested);
      assert loans[i] == init[i];
      assert forall j :: i < j < |init| ==> loans[j] == init[j];
    }
  }

  lemma LastPayerAppend(loans: seq<Loan>, l: Loan, loanId: Id, requested: Money)
    ensures LastPayer(loans + [l], loanId, requested)
            == if l.id == loanId && Accepts(l, requested) then Some(l.customerId)
               else LastPayer(loans, loanId, requested)
  {
    assert (loans + [l])[..|loans|] == loans;
  }

  /** One step of the map over a prefix of the collection. */
  lemma RepayMatchingStep(loans: seq<Loan>, i: nat, loanId: Id, requested: Money, date: Day)
    requires i < |loans|
    ensures RepayMatching(loans[..i + 1], loanId, requested, date)
            == RepayMatching(loans[..i], loanId, requested, date)
               + [if loans[i].id == loanId then ApplyRepayment(loans[i], requested, date) else loans[i]]
    ensures LastPayer(loans[..i + 1], loanId, requested)
            == if loans[i].id == loanId && Accepts(loans[i], requested) then Some(loans[i].customerId)
               else LastPayer(loans[..i], loanId, requested)
  {
    assert loans[..i + 1] == loans[..i] + [loans[i]];
    RepayMatchingAppend(loans[..i], loans[i], loanId, requested, date);
    LastPayerAppend(loans[..i], loans[i], loanId, requested);
  }

  /** The invariant on the whole collection. */
  predicate AllWellFormed(loans: seq<Loan>) {
    forall i :: 0 <= i < |loans| ==> WellFormed(loans[i])
  }

  /** Recording a repayment keeps every loan of a well-formed collection
      well formed, so no balance ever goes negative. */
  lemma RepayMatchingPreservesWellFormed(loans: seq<Loan>, loanId: Id, requested: Money, date: Day)
    requires AllWellFormed(loans)
    ensures AllWellFormed(RepayMatching(loans, loanId, requested, date))
    ensures forall i :: 0 <= i < |loans| ==>
              RemainingBalance(RepayMatching(loans, loanId, requested, date)[i]) >= 0
    ensures forall i :: 0 <= i < |loans| ==>
              RepayMatching(loans, loanId, requested, date)[i].customerId == loans[i].customerId
  {
    var r := RepayMatching(loans, loanId, requested, date);
    forall i | 0 <= i < |loans| ensures WellFormed(r[i]) {
      ApplyRepaymentPreservesWellFormed(loans[i], requested, date);
    }
  }
}
