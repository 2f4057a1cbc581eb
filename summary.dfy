/** The derived views of the ledger: the per-customer summary shown on the
    dashboard (customerLoanData) and the detail of the selected customer
    (selectedCustomerDetails) in src/App.tsx. */
module Summary {
  import opened Wrappers
  import opened Ledger

  datatype Status = PaidUp | Overdue | UpToDate

  /** A customer's record with the three derived columns of the dashboard. */
  datatype CustomerSummary = CustomerSummary(customer: Customer, outstandingBalance: Money,
                                             nextDueDate: Option<Day>, status: Status)

  datatype CustomerDetails = CustomerDetails(customer: Customer, loans: seq<Loan>)

  /** loans.filter(loan => loan.customerId === cid). */
  function CustomerLoans(loans: seq<Loan>, cid: Id): (r: seq<Loan>)
    ensures |r| <= |loans|
    ensures forall l :: l in r <==> l in loans && l.customerId == cid
  {
    if loans == [] then []
    else
      var last := loans[|loans| - 1];
      assert loans == loans[..|loans| - 1] + [last];
      CustomerLoans(loans[..|loans| - 1], cid) + (if last.customerId == cid then [last] else [])
  }

  /** Filtering one more loan appends it when it is the customer's. */
  lemma CustomerLoansAppend(loans: seq<Loan>, l: Loan, cid: Id)
    ensures CustomerLoans(loans + [l], cid)
            == CustomerLoans(loans, cid) + (if l.customerId == cid then [l] else [])
  {
    assert (loans + [l])[..|loans|] == loans;
  }

  /** The filter keeps order and multiplicity: filtering two collections one
      after the other gives the filter of their concatenation. */
  lemma {:induction false} CustomerLoansConcat(a: seq<Loan>, b: seq<Loan>, cid: Id)
    ensures CustomerLoans(a + b, cid) == CustomerLoans(a, cid) + CustomerLoans(b, cid)
    decreases |b|
  {
    if b == [] {
      assert a + b == a;
    } else {
      var init := b[..|b| - 1];
      var last := b[|b| - 1];
      var tail := if last.customerId == cid then [last] else [];
      assert b == init + [last];
      assert a + b == (a + init) + [last];
      calc {
        CustomerLoans(a + b, cid);
        { CustomerLoansAppend(a + init, last, cid); }
        CustomerLoans(a + init, cid) + tail;
        { CustomerLoansConcat(a, init, cid); }
        (CustomerLoans(a, cid) + CustomerLoans(init, cid)) + tail;
        CustomerLoans(a, cid) + (CustomerLoans(init, cid) + tail);
        { CustomerLoansAppend(init, last, cid); }
        CustomerLoans(a, cid) + CustomerLoans(b, cid);
      }
    }
  }

  /** The active loans: those that still have money owed on them. */
  function ActiveLoans(loans: seq<Loan>): (r: seq<Loan>)
    ensures |r| <= |loans|
    ensures forall l :: l in r <==> l in loans && RemainingBalance(l) > 0
  {
    if loans == [] then []
    else
      var last := loans[|loans| - 1];
      assert loans == loans[..|loans| - 1] + [last];
      ActiveLoans(loans[..|loans| - 1]) + (if RemainingBalance(last) > 0 then [last] else [])
  }

  lemma ActiveLoansAppend(loans: seq<Loan>, l: Loan)
    ensures ActiveLoans(loans + [l]) == ActiveLoans(loans) + (if RemainingBalance(l) > 0 then [l] else [])
  {
    assert (loans + [l])[..|loans|] == loans;
  }

  /** The sum of the remaining balances; over loans that all owe money it is
      positive unless there are none. */
  function SumRemaining(loans: seq<Loan>): (total: Money)
    ensures (forall l :: l in loans ==> RemainingBalance(l) > 0) ==> total >= 0
    ensures (forall l :: l in loans ==> RemainingBalance(l) > 0) ==> (total == 0 <==> loans == [])
  {
    if loans == [] then 0
    else
      var init := loans[..|loans| - 1];
      assert forall l :: l in init ==> l in loans;
      SumRemaining(init) + RemainingBalance(loans[|loans| - 1])
  }

  lemma SumRemainingAppend(loans: seq<Loan>, l: Loan)
    ensures SumRemaining(loans + [l]) == SumRemaining(loans) + RemainingBalance(l)
  {
    assert (loans + [l])[..|loans|] == loans;
  }

  /** What a loan contributes to the outstanding balance. */
  function Owed(l: Loan): (m: Money)
    ensures m >= 0 && (m > 0 <==> RemainingBalance(l) > 0)
  {
    if RemainingBalance(l) > 0 then RemainingBalance(l) else 0
  }

  /** outstandingBalance: the remaining balances of the active loans added
      up. It is never negative, and it is zero exactly when no loan of the
      list still owes money. */
  function OutstandingBalance(customerLoans: seq<Loan>): (total: Money)
    ensures total >= 0
    ensures total == 0 <==> forall l :: l in customerLoans ==> RemainingBalance(l) <= 0
  {
    var active := ActiveLoans(customerLoans);
    assert active == [] <==> forall l :: l in customerLoans ==> RemainingBalance(l) <= 0 by {
      if active != [] { assert active[0] in active; }
    }
    SumRemaining(active)
  }

  lemma OutstandingBalanceAppend(loans: seq<Loan>, l: Loan)
    ensures OutstandingBalance(loans + [l]) == OutstandingBalance(loans) + Owed(l)
  {
    var active := ActiveLoans(loans);
    ActiveLoansAppend(loans, l);
    if RemainingBalance(l) > 0 {
      SumRemainingAppend(active, l);
      assert ActiveLoans(loans + [l]) == active + [l];
    } else {
      assert ActiveLoans(loans + [l]) == active;
    }
  }

  /** The earliest due date of a list of loans, absent when the list is
      empty: the first element of the source's ascending sort. */
  function EarliestDueDate(loans: seq<Loan>): (r: Option<Day>)
    ensures r.None? <==> loans == []
    ensures r.Some? ==> (exists i :: 0 <= i < |loans| && loans[i].dueDate == r.value)
                        && (forall i :: 0 <= i < |loans| ==> r.value <= loans[i].dueDate)
  {
    if loans == [] then None
    else
      var last := loans[|loans| - 1];
      var init := loans[..|loans| - 1];
      assert forall i :: 0 <= i < |init| ==> init[i] == loans[i];
      match EarliestDueDate(init)
      case None => Some(last.dueDate)
      case Some(d) => if d <= last.dueDate then Some(d) else Some(last.dueDate)
  }

  /** The earliest due date of the active loans is the due date of an active
      loan, and no active loan falls due before it. */
  lemma EarliestActiveDueDate(customerLoans: seq<Loan>)
    ensures var r := EarliestDueDate(ActiveLoans(customerLoans));
            && (r.None? <==> forall l :: l in customerLoans ==> RemainingBalance(l) <= 0)
            && (r.Some? ==> (exists l :: l in customerLoans && RemainingBalance(l) > 0 && l.dueDate == r.value)
                            && (forall l :: l in customerLoans && RemainingBalance(l) > 0 ==> r.value <= l.dueDate))
  {
    var active := ActiveLoans(customerLoans);
    var r := EarliestDueDate(active);
    if active != [] {
      assert active[0] in active;
      var i :| 0 <= i < |active| && active[i].dueDate == r.value;
      assert active[i] in active;
      forall l | l in customerLoans && RemainingBalance(l) > 0 ensures r.value <= l.dueDate {
        assert l in active;
        var j :| 0 <= j < |active| && active[j] == l;
      }
    }
  }

  /** nextDueDate: the earliest due date among the active loans; absent
      exactly when no loan still owes money, and otherwise the due date of an
      active loan that no active loan's due date precedes. */
  function NextDueDate(customerLoans: seq<Loan>): (r: Option<Day>)
    ensures r.None? <==> forall l :: l in customerLoans ==> RemainingBalance(l) <= 0
    ensures r.Some? ==> (exists l :: l in customerLoans && RemainingBalance(l) > 0 && l.dueDate == r.value)
                        && (forall l :: l in customerLoans && RemainingBalance(l) > 0 ==> r.value <= l.dueDate)
  {
    EarliestActiveDueDate(customerLoans);
    EarliestDueDate(ActiveLoans(customerLoans))
  }

  /** activeLoans.some(isLoanOverdue): the scan from the first loan stops at
      the first overdue one, so it succeeds exactly when some loan of the
      collection, wherever it stands, is overdue; an empty collection never
      is. */
  predicate AnyOverdue(loans: seq<Loan>, now: Instant)
    ensures AnyOverdue(loans, now) <==> exists l :: l in loans && IsOverdue(l, now)
    ensures loans == [] ==> !AnyOverdue(loans, now)
  {
    if loans == [] then false
    else
      assert forall l :: l in loans ==> l == loans[0] || l in loans[1..];
      IsOverdue(loans[0], now) || AnyOverdue(loans[1..], now)
  }

  /** The status label: Paid Up exactly when no loan owes money, Overdue
      exactly when some loan is overdue, and Up-to-date otherwise. */
  function CustomerStatus(customerLoans: seq<Loan>, now: Instant): (s: Status)
    ensures s == PaidUp <==> forall l :: l in customerLoans ==> RemainingBalance(l) <= 0
    ensures s == Overdue <==> exists l :: l in customerLoans && IsOverdue(l, now)
  {
    var active := ActiveLoans(customerLoans);
    assert AnyOverdue(active, now) <==> exists l :: l in customerLoans && IsOverdue(l, now) by {
      if exists l :: l in customerLoans && IsOverdue(l, now) {
        var l :| l in customerLoans && IsOverdue(l, now);
        assert l in active;
        var i :| 0 <= i < |active| && active[i] == l;
      }
    }
    if OutstandingBalance(customerLoans) == 0 then PaidUp
    else if AnyOverdue(active, now) then Overdue
    else UpToDate
  }

  /** One dashboard row: the customer's own fields, and the balance, next due
      date and status of that customer's loans, which agree with each other. */
  function Summarize(c: Customer, loans: seq<Loan>, now: Instant): (s: CustomerSummary)
    ensures s.customer == c && s.outstandingBalance >= 0
    ensures s.status == PaidUp <==> s.outstandingBalance == 0
    ensures s.status == PaidUp <==> s.nextDueDate.None?
    ensures s.status == PaidUp <==> forall l :: l in loans && l.customerId == c.id ==> RemainingBalance(l) <= 0
    ensures s.status == Overdue <==> exists l :: l in loans && l.customerId == c.id && IsOverdue(l, now)
  {
    var customerLoans := CustomerLoans(loans, c.id);
    CustomerSummary(c, OutstandingBalance(customerLoans), NextDueDate(customerLoans),
                    CustomerStatus(customerLoans, now))
  }

  /** One more step of a map: the image of a sequence with one element
      appended is its image with that element's image appended. */
  lemma MapStep<A, B>(xs: seq<A>, ys: seq<B>, x: A, f: A -> B)
    requires |ys| == |xs| && forall i :: 0 <= i < |xs| ==> ys[i] == f(xs[i])
    ensures |ys + [f(x)]| == |xs + [x]|
    ensures forall i :: 0 <= i < |xs + [x]| ==> (ys + [f(x)])[i] == f((xs + [x])[i])
  {
  }

  /** customerLoanData, the customers.map that builds one dashboard row per
      customer: exactly one row per customer, in customer order. */
  function CustomerLoanData(customers: seq<Customer>, loans: seq<Loan>, now: Instant): (rows: seq<CustomerSummary>)
    ensures |rows| == |customers|
    ensures forall i :: 0 <= i < |customers| ==> rows[i] == Summarize(customers[i], loans, now)
  {
    if customers == [] then []
    else
      var init := customers[..|customers| - 1];
      var last := customers[|customers| - 1];
      var rows := CustomerLoanData(init, loans, now);
      MapStep(init, rows, last, c => Summarize(c, loans, now));
      assert init + [last] == customers;
      rows + [Summarize(last, loans, now)]
  }

  /** Array.prototype.find: the first element that satisfies p, if any. */
  function Find<T>(xs: seq<T>, p: T -> bool): (r: Option<T>)
    decreases |xs|, 1
    ensures r.None? <==> forall i :: 0 <= i < |xs| ==> !p(xs[i])
    ensures r.Some? ==> exists i :: 0 <= i < |xs| && xs[i] == r.value && p(xs[i])
                                    && forall j :: 0 <= j < i ==> !p(xs[j])
  {
    if xs == [] then None
    else if p(xs[0]) then Some(xs[0])
    else
      FindTail(xs, p);
      Find(xs[1..], p)
  }

  /** What finding in the tail says about the whole list, when its head fails p. */
  lemma FindTail<T>(xs: seq<T>, p: T -> bool)
    requires xs != [] && !p(xs[0])
    decreases |xs|, 0
    ensures var r := Find(xs[1..], p);
            && (r.None? <==> forall i :: 0 <= i < |xs| ==> !p(xs[i]))
            && (r.Some? ==> exists i :: 0 <= i < |xs| && xs[i] == r.value && p(xs[i])
                                        && forall j :: 0 <= j < i ==> !p(xs[j]))
  {
    var r := Find(xs[1..], p);
    assert forall i :: 1 <= i < |xs| ==> xs[1..][i - 1] == xs[i];
    if r.Some? {
      var k :| 0 <= k < |xs[1..]| && xs[1..][k] == r.value && p(xs[1..][k])
               && forall j :: 0 <= j < k ==> !p(xs[1..][j]);
      assert xs[k + 1] == r.value;
      forall j | 0 <= j < k + 1 ensures !p(xs[j]) {
        if j > 0 { assert xs[j] == xs[1..][j - 1]; }
      }
    }
  }

  /** Whether some customer carries the id. */
  predicate KnownCustomer(customers: seq<Customer>, id: Id) {
    exists j :: 0 <= j < |customers| && customers[j].id == id
  }

  /** Adding a customer forgets none of the known ids. */
  lemma KnownCustomerAppend(customers: seq<Customer>, c: Customer, id: Id)
    requires KnownCustomer(customers, id)
    ensures KnownCustomer(customers + [c], id)
  {
    var j :| 0 <= j < |customers| && customers[j].id == id;
    assert (customers + [c])[j] == customers[j];
  }

  /** selectedCustomerDetails: nothing when no customer is selected (the
      source's falsy test also turns away the id 0) or none has the selected
      id; otherwise the first customer with that id and exactly that
      customer's loans. */
  function SelectedCustomerDetails(selected: Option<Id>, customers: seq<Customer>, loans: seq<Loan>)
    : (r: Option<CustomerDetails>)
    ensures r.Some? <==> selected.Some? && selected.value != 0 && KnownCustomer(customers, selected.value)
    ensures r.Some? ==> && r.value.customer in customers
                        && r.value.customer.id == selected.value
                        && forall l :: l in r.value.loans <==> l in loans && l.customerId == selected.value
    ensures r.Some? ==> exists i :: 0 <= i < |customers| && customers[i] == r.value.customer
                                    && forall j :: 0 <= j < i ==> customers[j].id != selected.value
  {
    if selected.None? || selected.value == 0 then None
    else
      var id := selected.value;
      match Find(customers, (c: Customer) => c.id == id)
      case None => None
      case Some(c) => Some(CustomerDetails(c, CustomerLoans(loans, id)))
  }
}
