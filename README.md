# Credit ledger (khaata) engine in Dafny

This project models the ledger engine of a single-shop credit book written in React (`src/App.tsx`). A shopkeeper records customers and issues loans against them. Each loan has a principal, a due date and a growing list of repayments. Repayments are logged against a loan. The dashboard shows each customer's outstanding balance, next due date and a status label: Paid Up, Overdue or Up-to-date.

Modules, following the parts of the source:

- `Ledger` (ledger.dfy) defines the records (customer, loan, repayment). It models the remaining balance, the overdue rule, the clamp-or-reject step that `recordRepayment` applies to a matching loan, and the `map` of that step over the loan collection.
- `Summary` (summary.dfy) models the derived views: the per-customer dashboard row (`customerLoanData`) and the selected customer's detail (`selectedCustomerDetails`).
- `Effects` (effects.dfy) proves how adding a loan and recording a repayment change each customer's dashboard row.
- `Store` (store.dfy) is the provider's state as a class. Its fields are `customers`, `loans`, the current `Page` and the two selections. `AddCustomer`, `AddLoan` and `RecordRepayment` are methods. `RecordRepayment` runs `MapRepayment`, the loop over the loans.
- `Forms` (forms.dfy) models the submit handlers of the three form pages. It holds their input checks, the not-found guards of the loan and repayment pages, and the actions they call.
- `Text` (text.dfy) models JavaScript's `String.prototype.trim`, which the forms apply before testing a field for emptiness.
- `Scenarios` (scenarios.dfy) holds the seed records and shows that they satisfy the ledger's invariant. It also works through examples built from them.

Modelling choices:

- Money is `int` paise.
- A calendar date is an `int` day number since 1970-01-01.
- The clock is an explicit `Instant` parameter in milliseconds, in place of `new Date()`.
- Fresh ids are parameters, in place of `Date.now()`.
- Form fields arrive already parsed. `None` stands for an amount that parsed to NaN, or for an empty date field.

Points where the model follows the code's actual behaviour, which can differ from what its labels and comments suggest:

- The customer form rejects a blank email as well as a blank name (src/App.tsx:567), although the email field is labelled "(Optional)".
- `addLoan` itself checks nothing. The checks live in the loan form (src/App.tsx:636), together with the check that the selected customer exists (src/App.tsx:624-631). So the invariant "every loan has a positive principal and belongs to a known customer" is kept by `Forms.SubmitLoanForm`, and not by `Store.AppStore.AddLoan` on its own.
- "Due date before now" compares the due date's UTC midnight with the current instant (src/App.tsx:54). A loan with a balance is therefore already overdue during its own due day. `Ledger.OverdueFromStartOfDueDay` states this.
- Ids are not assumed unique. `recordRepayment` rewrites every loan whose id matches, as the source's `map` does. When several match, the customer of the last accepting loan becomes the selected customer.
- `selectedCustomerDetails` tests the selection for falsiness, so it also turns away the id 0.

## Model

| member | source | states |
|---|---|---|
| `Ledger.TotalRepaid` | src/App.tsx:48 | the reduce-sum of repayment amounts is non-negative when no repayment is negative, and zero exactly when a list of positive repayments is empty |
| `Ledger.RemainingBalance` | src/App.tsx:47-50 | a loan with no repayments owes its whole principal, and with no negative repayment the balance never exceeds the principal |
| `Ledger.RemainingBalanceBounds` | src/App.tsx:47-50 | on a well-formed loan, principal minus total repaid lies in [0, principal] and equals the principal iff nothing was repaid |
| `Ledger.IsOverdue` | src/App.tsx:52-55 | an overdue loan always has a positive balance, so a fully repaid loan is never overdue |
| `Ledger.OverdueFromStartOfDueDay` | src/App.tsx:52-55 | for a loan with a balance, overdue iff now is past the due date's UTC midnight, so it is already overdue during the due day |
| `Ledger.OverdueStaysOverdue` | src/App.tsx:52-55 | with the loan unchanged, an overdue loan stays overdue at every later instant |
| `Ledger.AmountToRecord` | src/App.tsx:160-161 | the clamped amount is at most the request and at most the balance, and equals one of them |
| `Ledger.Accepts` | src/App.tsx:160-166 | a repayment is accepted iff the request is positive and the loan's balance is positive |
| `Ledger.ClampIff` | src/App.tsx:161 | the clamp leaves the request intact iff it does not exceed the remaining balance |
| `Ledger.ApplyRepayment` | src/App.tsx:156-175 | on acceptance, exactly one repayment of min(request, balance) is appended after the earlier ones, the new balance is old minus it and lies in [0, old); on rejection the loan is identical; no other field changes |
| `Ledger.ApplyRepaymentPreservesWellFormed` | src/App.tsx:160-171 | positive principal, positive repayments and total repaid at most the principal survive every repayment |
| `Ledger.RepaymentNeverCausesOverdue` | src/App.tsx:52-55 | a loan that is overdue after a repayment was already overdue before it |
| `Ledger.RepayMatching` | src/App.tsx:154-178 | the map keeps length and order, applies the repayment step to the loans whose id matches and leaves every other loan identical |
| `Ledger.LastPayer` | src/App.tsx:155-173 | when the map selects no customer, no loan with the target id accepted the payment |
| `Ledger.LastPayerOwner` | src/App.tsx:155-173 | when the map selects a customer, it owns a loan with the target id that accepted the payment, and no later such loan accepted (the last selection wins) |
| `Ledger.RepayMatchingPreservesWellFormed` | src/App.tsx:154-178 | after recordRepayment on a well-formed collection every loan is still well formed, has a non-negative balance and keeps its customer |
| `Summary.CustomerLoans` | src/App.tsx:204 | the filter keeps exactly the loans with the customer's id |
| `Summary.CustomerLoansConcat` | src/App.tsx:204 | the filter keeps order and multiplicity: filtering a concatenation gives the concatenation of the two filters |
| `Summary.ActiveLoans` | src/App.tsx:205 | the active loans are exactly the loans with a positive balance |
| `Summary.SumRemaining` | src/App.tsx:207 | over loans that all owe money the reduce-sum is non-negative and zero iff there are none |
| `Summary.OutstandingBalance` | src/App.tsx:205-207 | the outstanding balance is non-negative and zero iff no loan of the customer owes money |
| `Summary.EarliestDueDate` | src/App.tsx:209-212 | the first date of the ascending sort is absent iff there are no loans, is some loan's due date and precedes none |
| `Summary.NextDueDate` | src/App.tsx:209-212 | the next due date is absent iff no loan is active, otherwise it is an active loan's due date and no active loan falls due earlier |
| `Summary.AnyOverdue` | src/App.tsx:214 | the scan in collection order succeeds iff some loan of the collection, wherever it stands, is overdue; on an empty collection it fails |
| `Summary.CustomerStatus` | src/App.tsx:214-215 | Paid Up iff no loan owes money; Overdue iff some loan is overdue; Up-to-date otherwise |
| `Summary.Summarize` | src/App.tsx:203-222 | one row keeps the customer's record, its balance is non-negative, and Paid Up iff balance 0 iff no next due date iff no active loan; Overdue iff some loan of the customer is overdue |
| `Summary.CustomerLoanData` | src/App.tsx:202-224 | the map, built one customer at a time, yields exactly one row per customer, in customer order, and row i is the summary of customer i |
| `Summary.Find` | src/App.tsx:228 | Array.find returns the first element satisfying the predicate, and nothing iff none does |
| `Summary.SelectedCustomerDetails` | src/App.tsx:226-235 | details exist iff a non-zero id is selected and some customer has it; they hold the first customer with that id and exactly that customer's loans |
| `Effects.AddLoanRaisesBalance` | src/App.tsx:138-151 | a new loan raises its customer's balance by its principal, makes the status not Paid Up, and moves the next due date to the earlier of the old one and its own |
| `Effects.AddLoanOtherCustomers` | src/App.tsx:138-151 | a new loan leaves every other customer's dashboard row unchanged |
| `Effects.RecordedFor` | src/App.tsx:161-171 | what a repayment records against a customer is non-negative, and positive iff some matching loan of that customer accepts |
| `Effects.ApplyRepaymentOwed` | src/App.tsx:160-175 | on one loan, what is owed drops by exactly the recorded amount |
| `Effects.RepaymentLowersBalance` | src/App.tsx:153-181 | each customer's outstanding balance drops by exactly what recordRepayment recorded against that customer's loans |
| `Effects.RepaymentOnDashboard` | src/App.tsx:153-181 | a repayment never raises a balance, a Paid Up customer stays Paid Up, and a customer nothing is recorded against keeps the same balance |
| `Store.AppStore.constructor` | src/App.tsx:66-79 | the initial store holds the given records, starts on the dashboard or the login page, and selects nothing |
| `Store.AppStore.Navigate` | src/App.tsx:184-188 | navigate sets the page and both selections and leaves the records alone |
| `Store.AppStore.AddCustomer` | src/App.tsx:127-136 | appends one customer, keeps the loans and earlier customers, shows the dashboard, preserves the invariant |
| `Store.AppStore.AddLoan` | src/App.tsx:138-151 | appends one loan with no repayments, keeps the earlier loans, shows that customer's page; keeps the invariant for a positive principal of a known customer |
| `Store.AppStore.RecordRepayment` | src/App.tsx:153-181 | the loans become the repayment map over the old loans, other loans and the customers are unchanged, the last accepting loan's customer is selected, the customer page is shown, the invariant is preserved |
| `Store.MapRepayment` | src/App.tsx:154-178 | the loop over the loans computes the repayment map, and the customer of the last loan that accepted, or the earlier selection when none did |
| `Forms.CheckCustomerForm` | src/App.tsx:565-573 | accepts iff neither name nor email is blank, and passes both on trimmed |
| `Forms.CheckLoanForm` | src/App.tsx:633-641 | rejects a blank item, a missing or non-positive amount and a missing due date, and accepts everything else with the item trimmed |
| `Forms.CheckRepaymentForm` | src/App.tsx:719-733 | accepts iff the amount lies in (0, balance] and a date is given; an amount above the balance gets its own error |
| `Forms.FormRepaymentIsNeverClamped` | src/App.tsx:726-732 | a repayment the form lets through is accepted and recorded in full, so the clamp never cuts form input |
| `Forms.SelectedCustomer` | src/App.tsx:624 | the page's customer lookup finds a customer with the selected id iff one exists, and it is the first such customer |
| `Forms.SelectedLoan` | src/App.tsx:708 | the page's loan lookup finds a loan with the selected id iff one exists, and it is the first such loan |
| `Forms.SubmitCustomerForm` | src/App.tsx:565-573 | a valid form adds the trimmed customer and shows the dashboard with both selections unchanged; an invalid one changes nothing; the invariant is kept |
| `Forms.SubmitLoanForm` | src/App.tsx:624-641 | a missing customer sends the page to the dashboard; a failed check changes nothing; otherwise one empty loan is added for the selected customer, both selections stay, and the invariant is kept |
| `Forms.SubmitRepaymentForm` | src/App.tsx:707-733 | a missing customer or loan sends the page to the dashboard; a failed check changes nothing; otherwise the repayment map runs with the full requested amount, the loan stays selected, the customer of the last accepting loan becomes selected, and the invariant is kept |
| `Text.IsWhitespace` | src/App.tsx:567 | among ASCII characters trim removes exactly tab, line feed, vertical tab, form feed, carriage return and space; it never removes letters or digits |
| `Text.TrimStart` | src/App.tsx:567 | drops exactly the leading whitespace: a suffix whose first character is not whitespace |
| `Text.TrimEnd` | src/App.tsx:567 | drops exactly the trailing whitespace: a prefix whose last character is not whitespace |
| `Text.Trim` | src/App.tsx:567 | trim is the slice that starts after the leading whitespace, with only whitespace cut on either side and none left at its ends |
| `Text.TrimEmptyIff` | src/App.tsx:636 | a field trims to empty iff it holds only whitespace |
| `Scenarios.SeedLoansWellFormed` | src/App.tsx:20-44 | every seed loan has a positive principal, positive repayments and no more repaid than lent |
| `Scenarios.SeedCustomerIds` | src/App.tsx:7-18 | the seed customers carry the ids 1 to 10 |
| `Scenarios.SeedLedgerIsValid` | src/App.tsx:7-44 | the seed ledger satisfies the invariant the actions preserve: every loan is well formed and belongs to a seed customer |
| `Scenarios.StartFromSeed` | src/App.tsx:65-76 | a store started from the seed records holds them and satisfies the invariant |
| `Scenarios.FullyRepaidCustomer` | src/App.tsx:28 | the seed customer whose only loan is fully repaid is Paid Up, owes nothing, has no next due date, and that loan is never overdue |
| `Scenarios.OverdueCustomer` | src/App.tsx:25-26 | the seed customer with one overdue and one current loan is Overdue on 2025-05-01, owes both balances and is next due on 2025-04-20 |
| `Scenarios.ClampedAndRejectedRepayments` | src/App.tsx:160-166 | an over-payment of 900 on 700 remaining records 700 and leaves 0; a negative request leaves the loan unchanged |

## Left out

- JSX rendering, styling, the header, the footer and the icons carry no ledger logic.
- The browser's own checks on the form inputs, which run before a submit handler is called, are not modelled. These are `required`, `min="0.01"` and `step="0.01"` on the amounts (src/App.tsx:668-670, :749-751), `max` = the remaining balance on the repayment amount (:752), `min` = today on the loan's due date (:685) and `max` = today on the repayment date (:765). `Forms.CheckLoanForm` and `Forms.CheckRepaymentForm` state what the handlers accept, so they also accept inputs the page would refuse, such as a past due date for a new loan or a future repayment date.
- Persistence to local storage and the effects that run it are browser I/O. The initial records are constructor parameters.
- The toast and its timed dismissal are a timed side effect. The model returns an outcome instead.
- The mock login and logout and the theme toggle are outside the ledger.
- Date formatting, currency formatting, `parseFloat` and `parseInt` are left out: inputs arrive parsed, and dates are day numbers.
- The clock and id generation are parameters: `now` for `new Date()` and `freshId` for `Date.now()`.
- Floating-point money is not modelled. Amounts are exact integers in paise, so the rounding that `outstandingBalance === 0` could meet on fractional rupees does not arise.
- Time zones are not modelled. Due dates are read as UTC midnight, as `new Date('YYYY-MM-DD')` does.
- A NaN amount handed straight to `recordRepayment` would slip past its `<= 0` test. It is not modelled, because the only caller, the repayment form, rejects NaN first.
- React state batching, double invocation of state updaters, and serialising concurrent repayments are library and concurrency concerns. The model is one sequential store.
- The form pages' not-found guards run when the page renders. They are modelled as the first step of submitting the form.
- The mocked PDF export is a UI stub.
- Navigation from buttons elsewhere in the UI is left out. `Navigate` is modelled only because the form guards use it.
