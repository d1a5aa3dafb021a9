/** Monthly PAYE income tax as the payroll engine computes it: a chain of
    absolute income breakpoints, each band carrying a pre-added base tax and
    its own marginal rate. */
module Paye {
  import opened TaxSchedule

  /** The PAYE chain. Every test is `<=`, so an income exactly at a
      breakpoint is taxed in the lower band, and any income of 402 or less,
      negative ones included, falls in the first band and owes nothing. */
  function CalculatePaye(income: real): (tax: real)
    ensures 0.0 <= tax
    ensures income <= 402.0 ==> tax == 0.0
    ensures income > 402.0 ==> tax <= 0.35 * (income - 402.0)
    ensures income > 0.0 ==> tax < income
  {
    if income <= 402.0 then 0.0
    else if income <= 512.0 then (income - 402.0) * 0.05
    else if income <= 642.0 then 5.5 + (income - 512.0) * 0.10
    else if income <= 3642.0 then 18.5 + (income - 642.0) * 0.175
    else if income <= 20000.0 then 543.5 + (income - 3642.0) * 0.25
    else if income <= 50000.0 then 4633.0 + (income - 20000.0) * 0.30
    else 13633.0 + (income - 50000.0) * 0.35
  }

  /** The same schedule in incremental-width form: a tax-free slice of 402,
      then slices of 110, 130, 3000, 16358 and 30000 at rising rates, and
      35% on everything above. */
  const MonthlySchedule: Schedule :=
    Schedule([Tier(402.0, 0.0), Tier(110.0, 0.05), Tier(130.0, 0.10), Tier(3000.0, 0.175),
              Tier(16358.0, 0.25), Tier(30000.0, 0.30)], 0.35)

  /** The incremental-width schedule is well formed with 35% as its highest rate. */
  lemma MonthlyScheduleWellFormed()
    ensures WellFormed(MonthlySchedule.tiers, MonthlySchedule.topRate, 0.35)
  {
  }

  /** The breakpoints of the chain are the running sums of the slice widths,
      and each band's base tax is the cumulative tax of the slices below it,
      so the chain and the slices describe one schedule. */
  lemma {:induction false} BaseTaxIsCumulative()
    ensures Breakpoint(MonthlySchedule.tiers, 1) == 402.0 && Cumulative(MonthlySchedule.tiers, 1) == 0.0
    ensures Breakpoint(MonthlySchedule.tiers, 2) == 512.0 && Cumulative(MonthlySchedule.tiers, 2) == 5.5
    ensures Breakpoint(MonthlySchedule.tiers, 3) == 642.0 && Cumulative(MonthlySchedule.tiers, 3) == 18.5
    ensures Breakpoint(MonthlySchedule.tiers, 4) == 3642.0 && Cumulative(MonthlySchedule.tiers, 4) == 543.5
    ensures Breakpoint(MonthlySchedule.tiers, 5) == 20000.0 && Cumulative(MonthlySchedule.tiers, 5) == 4633.0
    ensures Breakpoint(MonthlySchedule.tiers, 6) == 50000.0 && Cumulative(MonthlySchedule.tiers, 6) == 13633.0
  {
    var t := MonthlySchedule.tiers;
    assert t[1..][1..][1..][1..][1..][1..] == [];
  }

  /** The chain computes exactly the tax that walking the slices computes,
      for every income, negative ones included. */
  lemma PayeMatchesSchedule(income: real)
    ensures CalculatePaye(income) == EvaluateTax(income, MonthlySchedule)
  {
    var t, top := MonthlySchedule.tiers, MonthlySchedule.topRate;
    MonthlyScheduleWellFormed();
    BaseTaxIsCumulative();
    if income <= 0.0 {
    } else if income <= 402.0 {
      ThresholdForm(t, top, 0.35, 0, income);
    } else if income <= 512.0 {
      ThresholdForm(t, top, 0.35, 1, income);
    } else if income <= 642.0 {
      ThresholdForm(t, top, 0.35, 2, income);
    } else if income <= 3642.0 {
      ThresholdForm(t, top, 0.35, 3, income);
    } else if income <= 20000.0 {
      ThresholdForm(t, top, 0.35, 4, income);
    } else if income <= 50000.0 {
      ThresholdForm(t, top, 0.35, 5, income);
    } else {
      ThresholdForm(t, top, 0.35, 6, income);
    }
  }

  /** PAYE never falls when income rises, and rises by at most 35% of the
      increase: no band boundary makes the tax jump. */
  lemma PayeMonotone(a: real, b: real)
    requires a <= b
    ensures CalculatePaye(a) <= CalculatePaye(b)
    ensures CalculatePaye(b) - CalculatePaye(a) <= 0.35 * (b - a)
  {
    PayeMatchesSchedule(a);
    PayeMatchesSchedule(b);
    MonthlyScheduleWellFormed();
    EvaluateTaxMonotone(MonthlySchedule, 0.35, a, b);
  }

  /** At each breakpoint the tax is the cumulative tax of the bands below,
      with nothing charged at the next band's rate. */
  lemma PayeAtBreakpoints(k: nat)
    requires 1 <= k <= |MonthlySchedule.tiers|
    ensures CalculatePaye(Breakpoint(MonthlySchedule.tiers, k)) == Cumulative(MonthlySchedule.tiers, k)
  {
    var t := MonthlySchedule.tiers;
    MonthlyScheduleWellFormed();
    BreakpointGrows(t, MonthlySchedule.topRate, 0.35, k);
    AtBreakpoint(t, MonthlySchedule.topRate, 0.35, k);
    PayeMatchesSchedule(Breakpoint(t, k));
  }
}
