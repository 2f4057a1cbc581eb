/** The provider's state and the three actions that change it (addCustomer,
    addLoan, recordRepayment in src/App.tsx), with the page navigation they
    perform. The toast they show and the persistence after each change are
    not part of this model. */
module Store {
  import opened Wrappers
  import opened Ledger
  import opened Summary

  /** The named views of the router. */
  datatype Page = Login | Dashboard | CustomerDetail | AddCustomer | AddLoan | RecordRepayment

  /** The ledger's invariant: every loan is well formed (so no balance is
      negative) and belongs to a customer that exists. */
  predicate LedgerInvariant(customers: seq<Customer>, loans: seq<Loan>) {
    && AllWellFormed(loans)
    && forall i :: 0 <= i < |loans| ==> KnownCustomer(customers, loans[i].customerId)
  }

  class AppStore {
    var customers: seq<Customer>
    var loans: seq<Loan>
    var currentPage: Page
    var selectedCustomerId: Option<Id>
    var selectedLoanId: Option<Id>

    /** The ledger's invariant holds of the records the store holds. */
    ghost predicate Valid()
      reads this
    {
      LedgerInvariant(customers, loans)
    }

    /** The provider's initial state, from stored or seed records. */
    constructor (initialCustomers: seq<Customer>, initialLoans: seq<Loan>, authenticated: bool)
      ensures customers == initialCustomers && loans == initialLoans
      ensures currentPage == (if authenticated then Dashboard else Login)
      ensures selectedCustomerId == None && selectedLoanId == None
    {
      customers := initialCustomers;
      loans := initialLoans;
      currentPage := if authenticated then Dashboard else Login;
      selectedCustomerId := None;
      selectedLoanId := None;
    }

    /** navigate: show a page with the given selections. */
    method Navigate(page: Page, customerId: Option<Id>, loanId: Option<Id>)
      modifies this
      ensures currentPage == page && selectedCustomerId == customerId && selectedLoanId == loanId
      ensures customers == old(customers) && loans == old(loans)
    {
      currentPage := page;
      selectedCustomerId := customerId;
      selectedLoanId := loanId;
    }

    /** addCustomer: appends one customer with the fresh id and returns to the
        dashboard; the loans and every earlier customer stay as they were. */
    method AddCustomer(freshId: Id, name: string, email: string)
      modifies this
      ensures customers == old(customers) + [Customer(freshId, name, email)]
      ensures loans == old(loans) && currentPage == Dashboard
      ensures selectedCustomerId == old(selectedCustomerId) && selectedLoanId == old(selectedLoanId)
      ensures old(Valid()) ==> Valid()
    {
      customers := customers + [Customer(freshId, name, email)];
      currentPage := Dashboard;
      if old(Valid()) {
        forall i | 0 <= i < |loans| ensures KnownCustomer(customers, loans[i].customerId) {
          KnownCustomerAppend(old(customers), Customer(freshId, name, email), loans[i].customerId);
        }
      }
    }

    /** addLoan: appends one loan with no repayments and shows its customer's
        page; the earlier loans and the customers stay as they were. The
        invariant survives when the form's checks hold: a positive principal
        and a customer that exists. */
    method AddLoan(freshId: Id, customerId: Id, itemSold: string, amount: Money, dueDate: Day)
      modifies this
      ensures loans == old(loans) + [Loan(freshId, customerId, itemSold, amount, dueDate, [])]
      ensures customers == old(customers) && selectedLoanId == old(selectedLoanId)
      ensures currentPage == CustomerDetail && selectedCustomerId == Some(customerId)
      ensures old(Valid()) && amount > 0 && KnownCustomer(customers, customerId) ==> Valid()
    {
      loans := loans + [Loan(freshId, customerId, itemSold, amount, dueDate, [])];
      currentPage := CustomerDetail;
      selectedCustomerId := Some(customerId);
    }

    /** recordRepayment: rewrites every loan whose id is loanId with the
        repayment callback (clamp, reject or append) and keeps the others,
        selects the customer whose loan last accepted the payment, and shows
        the customer page. */
    method RecordRepayment(loanId: Id, requested: Money, date: Day)
      modifies this
      ensures loans == RepayMatching(old(loans), loanId, requested, date)
      ensures |loans| == |old(loans)|
      ensures forall i :: 0 <= i < |loans| && old(loans)[i].id != loanId ==> loans[i] == old(loans)[i]
      ensures customers == old(customers) && selectedLoanId == old(selectedLoanId)
      ensures currentPage == CustomerDetail
      ensures selectedCustomerId == match LastPayer(old(loans), loanId, requested)
                                    case Some(cid) => Some(cid)
                                    case None => old(selectedCustomerId)
      ensures old(Valid()) ==> Valid()
    {
      if Valid() {
        RepayMatchingPreservesWellFormed(loans, loanId, requested, date);
      }
      var updated, payer := MapRepayment(loans, loanId, requested, date, selectedCustomerId);
      loans := updated;
      selectedCustomerId := payer;
      currentPage := CustomerDetail;
    }
  }

  /** The loop of recordRepayment's loans.map: each matching loan gets the
      callback, the others are kept, and every loan that accepts the payment
      selects its customer, so the last one to accept wins. */
  method MapRepayment(all: seq<Loan>, loanId: Id, requested: Money, date: Day, selected: Option<Id>)
    returns (updated: seq<Loan>, payer: Option<Id>)
    ensures updated == RepayMatching(all, loanId, requested, date)
    ensures payer == match LastPayer(all, loanId, requested)
                     case Some(cid) => Some(cid)
                     case None => selected
  {
    updated := [];
    payer := selected;
    var i := 0;
    while i < |all|
      invariant 0 <= i <= |all|
      invariant updated == RepayMatching(all[..i], loanId, requested, date)
      invariant payer == match LastPayer(all[..i], loanId, requested)
                         case Some(cid) => Some(cid)
                         case None => selected
    {
      var loan := all[i];
      RepayMatchingStep(all, i, loanId, requested, date);
      if loan.id == loanId {
        var remaining := RemainingBalance(loan);
        var amountToRecord := if requested < remaining then requested else remaining;
        assert amountToRecord == AmountToRecord(loan, requested);
        if amountToRecord <= 0 {
          updated := updated + [loan];
        } else {
          updated := updated + [loan.(repayments := loan.repayments + [Repayment(amountToRecord, date)])];
          payer := Some(loan.customerId);
        }
      } else {
        updated := updated + [loan];
      }
      i := i + 1;
    }
    assert all[..i] == all;
  }
}
