/** The value a form field yields after `parseFloat`: a number, or None when
    the text is not a number. */
module Wrappers {
  datatype Option<+T> = None | Some(value: T)
}

/** The payroll engine: from a basic salary and a list of allowances, the
    gross pay, the statutory SSNIT and NHIS deductions, the taxable income,
    PAYE, the total deductions and the net pay. */
module Payroll {
  import opened Wrappers
  import opened Paye

  datatype Allowance = Allowance(kind: string, amount: real)

  datatype Breakdown = Breakdown(
    grossPay: real,
    ssnitT1Employee: real,
    nhisEmployee: real,
    paye: real,
    taxableIncome: real,
    totalDeductions: real,
    netPay: real)

  /** Employee SSNIT (tier 1) and NHIS rates, both applied to basic salary. */
  const SsnitRate: real := 0.055
  const NhisRate: real := 0.025

  /** `parseFloat(x) || 0`: a field that is not a number counts as zero. */
  function OrZero(parsed: Option<real>): (v: real)
    ensures parsed.None? ==> v == 0.0
    ensures parsed.Some? ==> v == parsed.value
  {
    match parsed
    case None => 0.0
    case Some(x) => x
  }

  /** The sum of the allowance amounts, accumulated left to right from 0 as
      `reduce` does. */
  function TotalAllowances(allowances: seq<Allowance>): real
  {
    if allowances == [] then 0.0
    else TotalAllowances(allowances[..|allowances| - 1]) + allowances[|allowances| - 1].amount
  }

  /** Every amount is strictly positive, as the staging list guarantees. */
  predicate AllPositive(allowances: seq<Allowance>)
  {
    forall i :: 0 <= i < |allowances| ==> allowances[i].amount > 0.0
  }

  function CalculatePayroll(basicSalary: Option<real>, allowances: seq<Allowance>): (b: Breakdown)
    ensures b.grossPay == OrZero(basicSalary) + TotalAllowances(allowances)
    ensures b.ssnitT1Employee == SsnitRate * OrZero(basicSalary)
    ensures b.nhisEmployee == NhisRate * OrZero(basicSalary)
    ensures b.taxableIncome == b.grossPay - b.ssnitT1Employee
    ensures b.paye == CalculatePaye(b.taxableIncome)
    ensures b.totalDeductions == b.ssnitT1Employee + b.nhisEmployee + b.paye
    ensures b.netPay + b.totalDeductions == b.grossPay
  {
    var basic := OrZero(basicSalary);
    var grossPay := basic + TotalAllowances(allowances);
    var ssnitT1Employee := basic * SsnitRate;
    var nhisEmployee := basic * NhisRate;
    var taxableIncome := grossPay - ssnitT1Employee;
    var paye := CalculatePaye(taxableIncome);
    var totalDeductions := ssnitT1Employee + nhisEmployee + paye;
    var netPay := grossPay - totalDeductions;
    Breakdown(grossPay, ssnitT1Employee, nhisEmployee, paye, taxableIncome, totalDeductions, netPay)
  }

  /** Summing two lists one after the other is adding their sums. */
  lemma {:induction false} TotalAllowancesAppend(s: seq<Allowance>, t: seq<Allowance>)
    ensures TotalAllowances(s + t) == TotalAllowances(s) + TotalAllowances(t)
    decreases |t|
  {
    if t == [] {
      assert s + t == s;
    } else {
      assert (s + t)[..|s + t| - 1] == s + t[..|t| - 1];
      TotalAllowancesAppend(s, t[..|t| - 1]);
    }
  }

  /** The total does not depend on the order of the allowances. */
  lemma {:induction false} TotalAllowancesPermutation(s: seq<Allowance>, t: seq<Allowance>)
    requires multiset(s) == multiset(t)
    ensures TotalAllowances(s) == TotalAllowances(t)
    decreases |s|
  {
    if s != [] {
      var n := |s| - 1;
      var x := s[n];
      assert x in multiset(s) by { assert s == s[..n] + [x]; }
      var j :| 0 <= j < |t| && t[j] == x;
      var rest := t[..j] + t[j + 1..];
      RemoveLastMultiset(s);
      RemoveAtMultiset(t, j);
      TotalAllowancesPermutation(s[..n], rest);
      TotalAllowancesRemove(t, j);
    }
  }

  lemma RemoveLastMultiset(s: seq<Allowance>)
    requires s != []
    ensures multiset(s[..|s| - 1]) == multiset(s) - multiset{s[|s| - 1]}
  {
    assert s == s[..|s| - 1] + [s[|s| - 1]];
  }

  lemma RemoveAtMultiset(t: seq<Allowance>, j: nat)
    requires j < |t|
    ensures multiset(t[..j] + t[j + 1..]) == multiset(t) - multiset{t[j]}
  {
    assert t == t[..j] + [t[j]] + t[j + 1..];
  }

  /** Taking one allowance out of the list takes its amount off the total. */
  lemma TotalAllowancesRemove(t: seq<Allowance>, j: nat)
    requires j < |t|
    ensures TotalAllowances(t) == TotalAllowances(t[..j] + t[j + 1..]) + t[j].amount
  {
    var before, x, after := t[..j], t[j], t[j + 1..];
    assert t == (before + [x]) + after;
    TotalAllowancesAppend(before + [x], after);
    TotalAllowancesSnoc(before, x);
    TotalAllowancesAppend(before, after);
  }

  lemma TotalAllowancesSnoc(s: seq<Allowance>, x: Allowance)
    ensures TotalAllowances(s + [x]) == TotalAllowances(s) + x.amount
  {
    assert (s + [x])[..|s|] == s;
  }

  /** Positive amounts add up to a positive total whenever there is one. */
  lemma {:induction false} TotalAllowancesPositive(s: seq<Allowance>)
    requires AllPositive(s)
    ensures TotalAllowances(s) >= 0.0
    ensures s != [] ==> TotalAllowances(s) > 0.0
  {
    if s != [] {
      TotalAllowancesPositive(s[..|s| - 1]);
    }
  }

  /** SSNIT and NHIS come from basic salary alone: no change to the
      allowances changes either. */
  lemma DeductionsIgnoreAllowances(basicSalary: Option<real>, a1: seq<Allowance>, a2: seq<Allowance>)
    ensures CalculatePayroll(basicSalary, a1).ssnitT1Employee == CalculatePayroll(basicSalary, a2).ssnitT1Employee
    ensures CalculatePayroll(basicSalary, a1).nhisEmployee == CalculatePayroll(basicSalary, a2).nhisEmployee
  {
  }

  /** With a non-negative basic salary and positive allowances, every
      deduction is non-negative and at least half of gross pay is paid out. */
  lemma NetPayBounds(basicSalary: Option<real>, allowances: seq<Allowance>)
    requires OrZero(basicSalary) >= 0.0
    requires AllPositive(allowances)
    ensures var b := CalculatePayroll(basicSalary, allowances);
      0.0 <= b.ssnitT1Employee && 0.0 <= b.nhisEmployee && 0.0 <= b.paye &&
      b.grossPay / 2.0 <= b.netPay <= b.grossPay
  {
    TotalAllowancesPositive(allowances);
  }

  /** Adding an allowance of amount d >= 0 raises gross pay by d, leaves SSNIT
      and NHIS alone, and raises net pay by at least 65% of d and at most d. */
  lemma AddingAllowanceRaisesNetPay(basicSalary: Option<real>, allowances: seq<Allowance>, extra: Allowance)
    requires extra.amount >= 0.0
    ensures var before := CalculatePayroll(basicSalary, allowances);
      var after := CalculatePayroll(basicSalary, allowances + [extra]);
      after.grossPay == before.grossPay + extra.amount &&
      after.ssnitT1Employee == before.ssnitT1Employee &&
      after.nhisEmployee == before.nhisEmployee &&
      before.netPay + 0.65 * extra.amount <= after.netPay <= before.netPay + extra.amount
  {
    var before := CalculatePayroll(basicSalary, allowances);
    TotalAllowancesAppend(allowances, [extra]);
    assert TotalAllowances([extra]) == extra.amount by { assert [extra][..0] == []; }
    PayeMonotone(before.taxableIncome, before.taxableIncome + extra.amount);
  }

  /** Basic salary 1000 and no allowances: SSNIT 55, NHIS 25, taxable 945,
      PAYE 71.525 and net pay 848.475. */
  lemma WorkedExample()
    ensures CalculatePayroll(Some(1000.0), []) ==
      Breakdown(1000.0, 55.0, 25.0, 71.525, 945.0, 151.525, 848.475)
  {
  }

  /** A taxable income of zero or less, which a negative basic salary can
      produce since nothing rejects one, owes no PAYE: the net pay is then
      gross pay less SSNIT and NHIS only. */
  lemma NonPositiveTaxableOwesNothing(basicSalary: Option<real>, allowances: seq<Allowance>)
    requires CalculatePayroll(basicSalary, allowances).taxableIncome <= 0.0
    ensures CalculatePayroll(basicSalary, allowances).paye == 0.0
    ensures CalculatePayroll(basicSalary, allowances).netPay ==
      CalculatePayroll(basicSalary, allowances).grossPay - (SsnitRate + NhisRate) * OrZero(basicSalary)
  {
  }
}
