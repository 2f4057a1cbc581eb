/** Worked examples on the seed records of src/App.tsx (amounts in paise,
    dates as day numbers: 20198 is 2025-04-20, 20209 is 2025-05-01). */
module Scenarios {
  import opened Wrappers
  import opened Ledger
  import opened Summary
  import opened Store

  const Rohan := Customer(3, "Rohan Gupta", "rohan@shop.com")
  const SnacksLoan := Loan(301, 3, "Snacks & Drinks", 120000, 20218, [Repayment(120000, 20213)])

  const Priya := Customer(2, "Priya Singh", "priya@shop.com")
  const TailoringLoan := Loan(201, 2, "Tailoring Service", 250000, 20198,
                              [Repayment(100000, 20193), Repayment(100000, 20203)])
  const FabricLoan := Loan(202, 2, "Fabric", 80000, 20233, [])

  /** A fully repaid loan is never overdue and leaves its customer Paid Up,
      with nothing outstanding and no next due date. */
  lemma FullyRepaidCustomer(now: Instant)
    ensures RemainingBalance(SnacksLoan) == 0 && !IsOverdue(SnacksLoan, now)
    ensures Summarize(Rohan, [TailoringLoan, SnacksLoan, FabricLoan], now)
            == CustomerSummary(Rohan, 0, None, PaidUp)
  {
    var loans := [TailoringLoan, SnacksLoan, FabricLoan];
    assert [] + [TailoringLoan] == [TailoringLoan];
    assert [TailoringLoan] + [SnacksLoan] == loans[..2];
    assert loans[..2] + [FabricLoan] == loans;
    CustomerLoansAppend([], TailoringLoan, 3);
    CustomerLoansAppend([TailoringLoan], SnacksLoan, 3);
    CustomerLoansAppend(loans[..2], FabricLoan, 3);
    assert CustomerLoans(loans, 3) == [SnacksLoan];
    assert [] + [SnacksLoan] == [SnacksLoan];
    ActiveLoansAppend([], SnacksLoan);
  }

  /** A customer with one overdue and one current loan: Overdue, owing both
      balances, next due on the earlier due date. */
  lemma OverdueCustomer()
    ensures var now := Midnight(20209);
            Summarize(Priya, [TailoringLoan, FabricLoan], now)
            == CustomerSummary(Priya, 50000 + 80000, Some(20198), Overdue)
  {
    var loans := [TailoringLoan, FabricLoan];
    assert RemainingBalance(TailoringLoan) == 50000 by {
      assert TailoringLoan.repayments[..1] == [Repayment(100000, 20193)];
    }
    assert [] + [TailoringLoan] == [TailoringLoan];
    assert [TailoringLoan] + [FabricLoan] == loans;
    CustomerLoansAppend([], TailoringLoan, 2);
    CustomerLoansAppend([TailoringLoan], FabricLoan, 2);
    ActiveLoansAppend([], TailoringLoan);
    ActiveLoansAppend([TailoringLoan], FabricLoan);
    SumRemainingAppend([], TailoringLoan);
    SumRemainingAppend([TailoringLoan], FabricLoan);
    assert CustomerLoans(loans, 2) == loans;
    assert ActiveLoans(loans) == loans;
    assert loans[..1] == [TailoringLoan];
    assert EarliestDueDate(loans) == Some(20198);
    assert IsOverdue(TailoringLoan, Midnight(20209));
  }

  /** An over-payment is clamped to what is left and pays the loan off; a
      negative request is turned away and the loan stays as it was. */
  lemma ClampedAndRejectedRepayments(date: Day)
    ensures var loan := Loan(1, 1, "Goods", 100000, 20240, [Repayment(30000, 20209)]);
            && AmountToRecord(loan, 90000) == 70000
            && RemainingBalance(ApplyRepayment(loan, 90000, date)) == 0
            && ApplyRepayment(loan, -500, date) == loan
  {
  }

  /** The seed records the provider starts from when nothing is stored. */
  const SeedCustomers := [
    Customer(1, "Aarav Sharma", "aarav@shop.com"), Priya, Rohan,
    Customer(4, "Sneha Patel", "sneha@shop.com"), Customer(5, "Vikram Kumar", "vikram@shop.com"),
    Customer(6, "Anjali Reddy", "anjali@shop.com"), Customer(7, "Mohammed Khan", "mohammed@shop.com"),
    Customer(8, "Diya Mehta", "diya@shop.com"), Customer(9, "Kabir Joshi", "kabir@shop.com"),
    Customer(10, "Ishaan Verma", "ishaan@shop.com")]

  const GroceriesLoan := Loan(101, 1, "Groceries", 150000, 20223, [Repayment(50000, 20209)])
  const HardwareLoan := Loan(501, 5, "Hardware Supplies", 320000, 20208, [Repayment(100000, 20206)])
  const RechargeLoan := Loan(701, 7, "Phone Recharge", 30000, 20216, [Repayment(30000, 20210)])

  const SeedLoans := [
    GroceriesLoan, Loan(102, 1, "Milk Subscription", 60000, 20240, []),
    TailoringLoan, FabricLoan, SnacksLoan,
    Loan(401, 4, "Vegetables", 75000, 20226, []), Loan(402, 4, "Cooking Oil", 40000, 20244, []),
    HardwareLoan, Loan(601, 6, "Stationery", 55000, 20230, []), RechargeLoan,
    Loan(801, 8, "Cosmetics", 180000, 20249, []), Loan(901, 9, "Dairy Products", 95000, 20236, []),
    Loan(1001, 10, "Cleaning Supplies", 65000, 20220, [])]

  /** Every seed loan is well formed. */
  lemma SeedLoansWellFormed()
    ensures AllWellFormed(SeedLoans)
  {
    forall r: Repayment ensures TotalRepaid([r]) == r.amount {
      TotalRepaidAppend([], r);
      assert [] + [r] == [r];
    }
    TotalRepaidAppend([Repayment(100000, 20193)], Repayment(100000, 20203));
    assert [Repayment(100000, 20193)] + [Repayment(100000, 20203)] == TailoringLoan.repayments;
    assert WellFormed(GroceriesLoan) && WellFormed(TailoringLoan) && WellFormed(SnacksLoan);
    assert WellFormed(HardwareLoan) && WellFormed(RechargeLoan);
    forall l | l in SeedLoans ensures WellFormed(l) {
    }
  }

  /** The seed customers carry the ids 1 to 10. */
  lemma SeedCustomerIds(k: int)
    requires 1 <= k <= 10
    ensures KnownCustomer(SeedCustomers, k)
  {
    assert SeedCustomers[k - 1].id == k;
  }

  /** The seed ledger satisfies the invariant the actions preserve: each
      seed loan is well formed and belongs to a seed customer. */
  lemma SeedLedgerIsValid()
    ensures LedgerInvariant(SeedCustomers, SeedLoans)
  {
    SeedLoansWellFormed();
    forall l | l in SeedLoans ensures KnownCustomer(SeedCustomers, l.customerId) {
      SeedCustomerIds(l.customerId);
    }
  }

  /** Starting the provider from the seed records yields a store that keeps
      the invariant. */
  method StartFromSeed(authenticated: bool) returns (store: AppStore)
    ensures store.customers == SeedCustomers && store.loans == SeedLoans
    ensures store.Valid()
  {
    store := new AppStore(SeedCustomers, SeedLoans, authenticated);
    SeedLedgerIsValid();
  }
}
