# RESCONI Payroll: a verified model of the payroll engine

RESCONI Payroll is a browser page that computes Ghanaian statutory payroll
for an employee from a basic salary and a list of allowances. It computes
gross pay, employee SSNIT (tier 1, 5.5% of basic), NHIS (2.5% of basic),
taxable income (gross less SSNIT), monthly PAYE income tax on a seven-band
progressive schedule, total deductions and net pay. It keeps two lists in
memory: the allowances staged on the employee form and the saved employees,
keyed by employee id.

This project models that engine and those two lists in Dafny. Money is
`real`, so the arithmetic is exact.

- `tax_schedule.dfy` (module `TaxSchedule`) is a generic progressive
  schedule in incremental-width form. It is an ordered list of tiers, each
  with a width and a marginal rate, followed by an unbounded top rate. It is
  evaluated by walking the tiers. This is the reference definition that the
  engine's tax chain is proved equal to. It proves the threshold form
  between breakpoints, the value at each breakpoint, monotonicity and the
  bound on the marginal increase.
- `paye.dfy` (module `Paye`) is `calculatePAYE`, the if/else chain over
  absolute breakpoints with pre-added base taxes. It proves:
  - the chain equals the walk over the slices 402 @ 0%, 110 @ 5%, 130 @ 10%,
    3000 @ 17.5%, 16358 @ 25% and 30000 @ 30%, with 35% above, for every
    income;
  - each base constant is the cumulative tax of the bands below it;
  - the tax is zero up to 402, is monotone and never rises by more than 35%
    of an income increase, so it is continuous.
- `payroll.dfy` (modules `Wrappers`, `Payroll`) is `calculatePayroll`,
  together with the helper `OrZero` for the `parseFloat(x) || 0` coercion
  (an `Option<real>` that defaults to 0) and the helper `TotalAllowances`
  for the `reduce` that sums the allowances.
- `staging.dfy` (module `Staging`) is the `splice(index, 1)` that removes a
  staged allowance. The helper `SpliceStart` gives JavaScript's handling of
  negative and out-of-range indices.
- `registry.dfy` (module `Registry`) covers the employee record, the
  `findIndex` lookup by id and the `filter` that deletes by id.
- `app.dfy` (module `App`) holds the page's two global arrays as the class
  `PayrollApp`, with the handlers that change them: `addAllowanceRow`,
  `removeAllowance`, `resetEmployeeForm`, `handleFormSubmit` (upsert by id)
  and `deleteEmployee`. The helper `EmployeeRecord` builds the record that
  `handleFormSubmit` saves. The class invariant is that every staged amount is
  positive and no two saved employees share an id.

The model follows the code:
- The code never rejects a negative basic salary, and neither does the model.
- A non-positive taxable income owes no PAYE only because the first test,
  `income <= 402`, catches it. There is no separate clamp.
- The schedule and the rates are constants in the code, not configuration.
- There is one SSNIT tier, no annualised schedule and no employer-side cost.
- Allowance amounts must be strictly positive, not merely non-negative.

## Model

| member | source | states |
|---|---|---|
| `Paye.CalculatePaye` | script.js:96-106 | PAYE is never negative. It is 0 for every income of 402 or less, negative incomes included. Above 402 it is at most 35% of the excess over 402, so it is always less than a positive income. |
| `Paye.PayeMatchesSchedule` | script.js:96-106 | For every real income, the breakpoint-and-base-tax chain gives exactly the tax of walking the slices 402/110/130/3000/16358/30000 at 0/5/10/17.5/25/30% with 35% above. |
| `Paye.BaseTaxIsCumulative` | script.js:98-104 | The breakpoints 402, 512, 642, 3642, 20000 and 50000 are the running sums of the slice widths. The base taxes 0, 5.5, 18.5, 543.5, 4633 and 13633 are the cumulative tax of the slices below each breakpoint. |
| `Paye.PayeAtBreakpoints` | script.js:98-104 | An income exactly at a breakpoint is taxed only the cumulative tax of the bands below. Each base constant is the lower band's tax at the breakpoint, and the `<=` tests put such an income in the lower band. |
| `Paye.PayeMonotone` | script.js:96-106 | PAYE is non-decreasing in income. Raising income by d raises PAYE by at most 0.35·d, so no breakpoint makes the tax jump. |
| `TaxSchedule.ThresholdForm` | script.js:96-106 | For a well-formed schedule and an income strictly above the k-th breakpoint and at most the next one, the walk equals the cumulative tax of the first k tiers plus the next rate times the excess. This is the equivalence of the incremental-width and threshold forms. |
| `TaxSchedule.AtBreakpoint` | script.js:98-104 | At the k-th breakpoint the walk equals the cumulative tax of the first k tiers, because a remainder equal to a tier's width stays in that tier. |
| `TaxSchedule.WalkMonotone` | script.js:96-106 | With rates in [0, m] and 0 <= a <= b, the walk's tax at b exceeds that at a by between 0 and m·(b − a). |
| `TaxSchedule.EvaluateTaxMonotone` | script.js:96-106 | The same monotone, m-bounded growth holds for the clamped evaluation on all reals, negative ones included. |
| `TaxSchedule.EvaluateTaxBounds` | script.js:96-106 | The evaluated tax is never negative and never more than m times a non-negative income. |
| `Payroll.CalculatePayroll` | script.js:65-94 | gross = basic + the sum of the allowances. SSNIT = 5.5% and NHIS = 2.5% of basic. taxable = gross − SSNIT, so NHIS is not subtracted. PAYE is the chain applied to taxable. Total deductions = SSNIT + NHIS + PAYE, and net + total deductions = gross. |
| `Payroll.TotalAllowancesAppend` | script.js:67 | The sum over two lists one after the other is the sum of their sums. |
| `Payroll.TotalAllowancesPermutation` | script.js:67 | Any reordering of the allowances gives the same total, so gross pay does not depend on their order. |
| `Payroll.TotalAllowancesRemove` | script.js:67 | Taking the allowance at position j out of the list takes exactly its amount off the total. |
| `Payroll.TotalAllowancesPositive` | script.js:67 | A list of positive amounts sums to at least 0, and to more than 0 when it is not empty. |
| `Payroll.DeductionsIgnoreAllowances` | script.js:73-74 | For the same basic salary, SSNIT and NHIS are equal whatever the two allowance lists are. |
| `Payroll.NetPayBounds` | script.js:65-94 | With a non-negative basic salary and positive allowances, SSNIT, NHIS and PAYE are non-negative, and net pay lies between half of gross pay and gross pay. |
| `Payroll.AddingAllowanceRaisesNetPay` | script.js:67-83 | Adding an allowance of amount d >= 0 raises gross pay by d and leaves SSNIT and NHIS unchanged. It raises net pay by at least 0.65·d and at most d. |
| `Payroll.WorkedExample` | script.js:65-106 | Basic 1000 with no allowances gives gross 1000, SSNIT 55, NHIS 25, PAYE 71.525, taxable 945, total deductions 151.525 and net 848.475. |
| `Payroll.NonPositiveTaxableOwesNothing` | script.js:77-98 | When taxable income is zero or less, PAYE is 0 and net pay is gross less SSNIT and NHIS. |
| `Staging.SpliceOne` | script.js:47 | `splice(index, 1)` on a valid index i gives exactly the list without position i. In general it removes exactly the element at the start position when there is one. Elements before it keep their positions, elements after it move down by one, and otherwise the list is unchanged. |
| `Staging.SpliceOneKeepsPositive` | script.js:47 | Removing a staged row keeps every remaining amount positive and takes that row's amount off the allowance total. |
| `Staging.SpliceOneTotal` | script.js:47 | When `splice(index, 1)` removes a row, the allowance total drops by exactly that row's amount. |
| `Registry.FindIndexById` | script.js:138 | `findIndex` returns −1 exactly when no record has the id. Otherwise it returns the first position holding the id. |
| `Registry.WithoutId` | script.js:261 | `filter` never lengthens the list and leaves no record with the deleted id. |
| `Registry.WithoutIdMembers` | script.js:261 | A record is in the filtered list exactly when it was in the list and has a different id. |
| `Registry.WithoutIdAppend` | script.js:261 | Filtering a concatenation filters each part in place, so surviving records keep their relative order. |
| `Registry.WithoutIdAbsent` | script.js:261 | Deleting an id no record has leaves the list unchanged. |
| `Registry.WithoutIdRemovesOne` | script.js:261 | With unique ids, deleting the id at position i gives exactly the list without position i, with the others in order. |
| `Registry.WithoutIdKeepsUnique` | script.js:261 | Deleting keeps ids unique, and removes one record when the id was present and none otherwise. |
| `Registry.IdOnlyAt` | script.js:138-139 | With unique ids, the id at position i occurs nowhere before or after it, so the first match `findIndex` finds is the only one. |
| `App.ReplaceAt` | script.js:139 | Overwriting the record that holds an id with a new record for that id keeps ids unique, and every other position keeps its record. |
| `App.PayrollApp.constructor` | script.js:2-3 | Both lists start empty, which satisfies the invariant. |
| `App.PayrollApp.AddAllowanceRow` | script.js:32-44 | The row is accepted exactly when the coerced amount is positive, so a non-numeric amount is always rejected. An accepted row is appended with that amount, and a rejected one leaves the list unchanged. Staged amounts stay positive, and the employees are untouched. |
| `App.PayrollApp.RemoveAllowance` | script.js:46-50 | The staged list becomes `SpliceOne` of the old list, and the invariant and the employees are kept. |
| `App.PayrollApp.ResetEmployeeForm` | script.js:150-155 | The staged list is emptied, and the employees are untouched. |
| `App.PayrollApp.HandleFormSubmit` | script.js:120-148 | The new record is built from the form, a copy of the staged allowances and their `calculatePayroll` breakdown. If the id is already saved, the list keeps its length and the record replaces exactly the entry with that id. Otherwise the record is appended. Ids stay unique and the staged list is reset. |
| `App.PayrollApp.DeleteEmployee` | script.js:259-267 | When confirmed, the employee list becomes `WithoutId` of the old list. When not confirmed, nothing changes. Ids stay unique and the staged list is untouched. |

## Left out

- DOM reads and writes are not modelled: section navigation, list rendering, the live preview, the dashboard totals, the employee table and the select box. They hold no logic beyond calling the engine. The form's field values become method parameters (`EmployeeForm`, `kind`, `amountField`, `index`, `id`).
- Persistence in `localStorage` and JSON (`loadEmployees`, `saveEmployees`) is not modelled, because it is a foreign API. The registry starts empty, and stored data is assumed to be what `saveEmployees` wrote.
- The payslip HTML, date formatting and `formatCurrency` are not modelled. They are presentation and depend on the locale.
- `alert` and `confirm` are not modelled as dialogs. The confirmation of `deleteEmployee` is the boolean parameter `confirmed`.
- IEEE-754 doubles and `parseFloat`'s string scanning are not modelled. Amounts are exact reals, and a parse result is `Option<real>`, with None standing for NaN. Floating-point rounding in the sums and products is not modelled.
- A fractional or non-numeric `removeAllowance` index is not modelled. The page only passes the integer positions it rendered.
