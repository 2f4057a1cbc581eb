/** The submit handlers of the three form pages (AddCustomerFormPage,
    AddLoanFormPage, RecordRepaymentFormPage in src/App.tsx): the checks that
    guard the ledger actions, and the actions they then call. Numbers and
    dates arrive already parsed; None stands for a field that parsed to NaN
    or was left empty. */
module Forms {
  import opened Wrappers
  import opened Text
  import opened Ledger
  import opened Summary
  import opened Store

  datatype FormError =
    | MissingNameOrEmail   // the customer form's alert
    | InvalidLoanFields    // "Please fill all fields correctly"
    | InvalidRepayment     // "Please enter a valid positive amount and date"
    | ExceedsBalance       // "Repayment amount cannot exceed remaining balance"
    | NotFound             // the page's customer or loan is missing

  /** A text field that holds nothing but whitespace. */
  predicate Blank(s: string) {
    forall i :: 0 <= i < |s| ==> IsWhitespace(s[i])
  }

  /** The customer form accepts exactly when neither the name nor the email is
      blank, and passes both on trimmed. */
  function CheckCustomerForm(name: string, email: string): (r: Result<(string, string), FormError>)
    ensures r.Ok? <==> !Blank(name) && !Blank(email)
    ensures r.Ok? ==> r.value == (Trim(name), Trim(email))
    ensures r.Err? ==> r.error == MissingNameOrEmail
  {
    TrimEmptyIff(name);
    TrimEmptyIff(email);
    if Trim(name) != [] && Trim(email) != [] then Ok((Trim(name), Trim(email)))
    else Err(MissingNameOrEmail)
  }

  datatype LoanInput = LoanInput(itemSold: string, amount: Money, dueDate: Day)

  /** The loan form rejects a blank item, an amount that is missing or not
      positive, and a missing due date, and accepts every other input with
      the item trimmed. */
  function CheckLoanForm(itemSold: string, amount: Option<Money>, dueDate: Option<Day>)
    : (r: Result<LoanInput, FormError>)
    ensures r.Ok? <==> !Blank(itemSold) && amount.Some? && amount.value > 0 && dueDate.Some?
    ensures r.Ok? ==> r.value == LoanInput(Trim(itemSold), amount.value, dueDate.value)
    ensures r.Err? ==> r.error == InvalidLoanFields
  {
    TrimEmptyIff(itemSold);
    if Trim(itemSold) == [] || amount.None? || amount.value <= 0 || dueDate.None? then Err(InvalidLoanFields)
    else Ok(LoanInput(Trim(itemSold), amount.value, dueDate.value))
  }

  /** The repayment form accepts exactly an amount in (0, remaining] with a
      date; an amount above the balance gets its own message, every other bad
      input the general one. */
  function CheckRepaymentForm(amount: Option<Money>, date: Option<Day>, remaining: Money)
    : (r: Result<(Money, Day), FormError>)
    ensures r.Ok? <==> amount.Some? && date.Some? && 0 < amount.value <= remaining
    ensures r.Ok? ==> r.value == (amount.value, date.value)
    ensures r.Err? ==> (r.error == ExceedsBalance <==> amount.Some? && date.Some? && 0 < amount.value && remaining < amount.value)
    ensures r.Err? ==> r.error in {ExceedsBalance, InvalidRepayment}
  {
    if amount.None? || amount.value <= 0 || date.None? then Err(InvalidRepayment)
    else if amount.value > remaining then Err(ExceedsBalance)
    else Ok((amount.value, date.value))
  }

  /** Because the form turns away anything above the balance of the loan it
      shows, a repayment it lets through is recorded in full: the clamp of
      recordRepayment never cuts it. */
  lemma FormRepaymentIsNeverClamped(loan: Loan, amount: Option<Money>, date: Option<Day>)
    requires CheckRepaymentForm(amount, date, RemainingBalance(loan)).Ok?
    ensures Accepts(loan, amount.value) && AmountToRecord(loan, amount.value) == amount.value
    ensures ApplyRepayment(loan, amount.value, date.value).repayments
            == loan.repayments + [Repayment(amount.value, date.value)]
  {
  }

  /** customers.find(c => c.id === selectedCustomerId): the first customer
      with that id; no customer matches when nothing is selected. */
  function SelectedCustomer(customers: seq<Customer>, selected: Option<Id>): (r: Option<Customer>)
    ensures r.Some? <==> selected.Some? && KnownCustomer(customers, selected.value)
    ensures r.Some? ==> r.value in customers && r.value.id == selected.value
    ensures r.Some? ==> exists i :: 0 <= i < |customers| && customers[i] == r.value
                                    && forall j :: 0 <= j < i ==> customers[j].id != selected.value
  {
    if selected.None? then None else Find(customers, (c: Customer) => c.id == selected.value)
  }

  /** loans.find(l => l.id === selectedLoanId): the first loan with that id. */
  function SelectedLoan(loans: seq<Loan>, selected: Option<Id>): (r: Option<Loan>)
    ensures r.Some? <==> selected.Some? && exists i :: 0 <= i < |loans| && loans[i].id == selected.value
    ensures r.Some? ==> r.value in loans && r.value.id == selected.value
    ensures r.Some? ==> exists i :: 0 <= i < |loans| && loans[i] == r.value
                                    && forall j :: 0 <= j < i ==> loans[j].id != selected.value
  {
    if selected.None? then None else Find(loans, (l: Loan) => l.id == selected.value)
  }

  /** Submitting the customer form: a valid form adds the trimmed customer
      and shows the dashboard; an invalid one changes nothing. */
  method SubmitCustomerForm(store: AppStore, freshId: Id, name: string, email: string)
    returns (outcome: Result<Customer, FormError>)
    modifies store
    ensures outcome.Ok? <==> CheckCustomerForm(name, email).Ok?
    ensures outcome.Ok? ==> && outcome.value == Customer(freshId, Trim(name), Trim(email))
                            && store.customers == old(store.customers) + [outcome.value]
                            && store.loans == old(store.loans)
                            && store.currentPage == Dashboard
                            && store.selectedCustomerId == old(store.selectedCustomerId)
                            && store.selectedLoanId == old(store.selectedLoanId)
    ensures outcome.Err? ==> outcome.error == MissingNameOrEmail && unchanged(store)
    ensures old(store.Valid()) ==> store.Valid()
  {
    match CheckCustomerForm(name, email)
    case Err(e) =>
      outcome := Err(e);
    case Ok((n, e)) =>
      store.AddCustomer(freshId, n, e);
      outcome := Ok(Customer(freshId, n, e));
  }

  /** Submitting the loan form of the selected customer. When that customer
      cannot be found the page goes back to the dashboard; a form that fails
      its checks changes nothing; otherwise one loan with no repayments is
      added for the customer, which keeps the ledger's invariant. */
  method SubmitLoanForm(store: AppStore, freshId: Id, itemSold: string, amount: Option<Money>, dueDate: Option<Day>)
    returns (outcome: Result<Loan, FormError>)
    modifies store
    ensures SelectedCustomer(old(store.customers), old(store.selectedCustomerId)).None? ==>
              && outcome == Err(NotFound)
              && store.currentPage == Dashboard && store.selectedCustomerId == None && store.selectedLoanId == None
              && store.customers == old(store.customers) && store.loans == old(store.loans)
    ensures SelectedCustomer(old(store.customers), old(store.selectedCustomerId)).Some? ==>
              (outcome.Ok? <==> CheckLoanForm(itemSold, amount, dueDate).Ok?)
    ensures outcome.Ok? ==> && outcome.value == Loan(freshId, old(store.selectedCustomerId).value, Trim(itemSold),
                                                   amount.value, dueDate.value, [])
                            && store.loans == old(store.loans) + [outcome.value]
                            && store.customers == old(store.customers)
                            && store.currentPage == CustomerDetail
                            && store.selectedCustomerId == old(store.selectedCustomerId)
                            && store.selectedLoanId == old(store.selectedLoanId)
    ensures outcome.Err? && outcome.error == InvalidLoanFields ==> unchanged(store)
    ensures old(store.Valid()) ==> store.Valid()
  {
    var customer := SelectedCustomer(store.customers, store.selectedCustomerId);
    if customer.None? {
      store.Navigate(Dashboard, None, None);
      outcome := Err(NotFound);
      return;
    }
    var customerId := store.selectedCustomerId.value;
    match CheckLoanForm(itemSold, amount, dueDate)
    case Err(e) =>
      outcome := Err(e);
    case Ok(input) =>
      store.AddLoan(freshId, customerId, input.itemSold, input.amount, input.dueDate);
      outcome := Ok(Loan(freshId, customerId, input.itemSold, input.amount, input.dueDate, []));
  }

  /** Submitting the repayment form of the selected loan. When the customer
      or the loan cannot be found the page goes back to the dashboard; a form
      that fails its checks against the loan's balance changes nothing;
      otherwise recordRepayment runs with the amount, which that loan then
      records in full. */
  method SubmitRepaymentForm(store: AppStore, amount: Option<Money>, date: Option<Day>)
    returns (outcome: Result<Money, FormError>)
    modifies store
    ensures var customer := SelectedCustomer(old(store.customers), old(store.selectedCustomerId));
            var loan := SelectedLoan(old(store.loans), old(store.selectedLoanId));
            && (customer.None? || loan.None? ==>
                  && outcome == Err(NotFound)
                  && store.currentPage == Dashboard && store.selectedCustomerId == None && store.selectedLoanId == None
                  && store.customers == old(store.customers) && store.loans == old(store.loans))
            && (customer.Some? && loan.Some? ==>
                  && (outcome.Ok? <==> CheckRepaymentForm(amount, date, RemainingBalance(loan.value)).Ok?)
                  && (outcome.Ok? ==> && outcome.value == amount.value
                                      && Accepts(loan.value, outcome.value)
                                      && AmountToRecord(loan.value, outcome.value) == outcome.value))
    ensures outcome.Ok? ==> && store.loans == RepayMatching(old(store.loans), old(store.selectedLoanId).value,
                                                            amount.value, date.value)
                            && store.customers == old(store.customers)
                            && store.currentPage == CustomerDetail
                            && store.selectedLoanId == old(store.selectedLoanId)
                            && LastPayer(old(store.loans), old(store.selectedLoanId).value, amount.value).Some?
                            && store.selectedCustomerId
                               == LastPayer(old(store.loans), old(store.selectedLoanId).value, amount.value)
    ensures outcome.Err? && outcome.error != NotFound ==> unchanged(store)
    ensures old(store.Valid()) ==> store.Valid()
  {
    var customer := SelectedCustomer(store.customers, store.selectedCustomerId);
    var loan := SelectedLoan(store.loans, store.selectedLoanId);
    if customer.None? || loan.None? {
      store.Navigate(Dashboard, None, None);
      outcome := Err(NotFound);
      return;
    }
    var remaining := RemainingBalance(loan.value);
    match CheckRepaymentForm(amount, date, remaining)
    case Err(e) =>
      outcome := Err(e);
    case Ok((a, d)) =>
      FormRepaymentIsNeverClamped(loan.value, amount, date);
      assert loan.value in store.loans;
      store.RecordRepayment(store.selectedLoanId.value, a, d);
      outcome := Ok(a);
  }
}
