/** A progressive tax schedule in incremental-width form: an ordered list of
    tiers, each a slice of income of some width taxed at its own marginal
    rate, followed by an unbounded top tier. The threshold-and-base-tax chain
    of the payroll engine is proved equal to this reference. */
module TaxSchedule {

  datatype Tier = Tier(width: real, rate: real)

  /** The bounded tiers in order, and the rate of the unbounded last tier. */
  datatype Schedule = Schedule(tiers: seq<Tier>, topRate: real)

  /** Every bounded tier has a positive width and every rate lies in [0, m]. */
  predicate WellFormed(tiers: seq<Tier>, top: real, m: real)
  {
    0.0 <= top <= m &&
    forall i :: 0 <= i < |tiers| ==> tiers[i].width > 0.0 && 0.0 <= tiers[i].rate <= m
  }

  /** Walk the tiers with `remaining` income: a tier the remainder strictly
      exceeds is consumed whole, otherwise the remainder is taxed at the
      tier's rate and the walk stops; the top tier takes whatever is left. */
  function Walk(remaining: real, tiers: seq<Tier>, top: real): real
    decreases |tiers|
  {
    if tiers == [] then remaining * top
    else if remaining > tiers[0].width then
      tiers[0].width * tiers[0].rate + Walk(remaining - tiers[0].width, tiers[1..], top)
    else remaining * tiers[0].rate
  }

  /** Tax owed on `taxable`; a taxable amount of zero or less owes nothing. */
  function EvaluateTax(taxable: real, s: Schedule): real
  {
    if taxable <= 0.0 then 0.0 else Walk(taxable, s.tiers, s.topRate)
  }

  /** The income at which the first k tiers are exactly used up. */
  function Breakpoint(tiers: seq<Tier>, k: nat): real
    requires k <= |tiers|
  {
    if k == 0 then 0.0 else tiers[0].width + Breakpoint(tiers[1..], k - 1)
  }

  /** The tax owed on the first k tiers, each fully consumed. */
  function Cumulative(tiers: seq<Tier>, k: nat): real
    requires k <= |tiers|
  {
    if k == 0 then 0.0 else tiers[0].width * tiers[0].rate + Cumulative(tiers[1..], k - 1)
  }

  /** The marginal rate that applies just above the k-th breakpoint. */
  function RateAbove(tiers: seq<Tier>, top: real, k: nat): real
    requires k <= |tiers|
  {
    if k < |tiers| then tiers[k].rate else top
  }

  lemma {:induction false} BreakpointGrows(tiers: seq<Tier>, top: real, m: real, k: nat)
    requires WellFormed(tiers, top, m)
    requires 1 <= k <= |tiers|
    ensures Breakpoint(tiers, k) >= tiers[0].width
    ensures Breakpoint(tiers, k) > 0.0
  {
    if k > 1 {
      WellFormedTail(tiers, top, m);
      BreakpointGrows(tiers[1..], top, m, k - 1);
    }
  }

  /** Between the k-th and the (k+1)-th breakpoint the tax is the cumulative
      tax of the first k tiers plus the next rate on the excess: the
      incremental-width form agrees with the threshold-and-base-tax form. An
      income exactly at a breakpoint belongs to the lower tier. */
  lemma {:induction false} ThresholdForm(tiers: seq<Tier>, top: real, m: real, k: nat, x: real)
    requires WellFormed(tiers, top, m)
    requires k <= |tiers|
    requires Breakpoint(tiers, k) < x
    requires k < |tiers| ==> x <= Breakpoint(tiers, k + 1)
    ensures Walk(x, tiers, top) == Cumulative(tiers, k) + (x - Breakpoint(tiers, k)) * RateAbove(tiers, top, k)
  {
    if k == 0 {
      ThresholdFirst(tiers, top, x);
    } else {
      var w, tail := tiers[0].width, tiers[1..];
      BreakpointGrows(tiers, top, m, k);
      WellFormedTail(tiers, top, m);
      if k < |tiers| {
        assert Breakpoint(tiers, k + 1) == w + Breakpoint(tail, k);
      }
      ThresholdForm(tail, top, m, k - 1, x - w);
      ThresholdStep(tiers, top, k, x);
    }
  }

  lemma ThresholdFirst(tiers: seq<Tier>, top: real, x: real)
    requires 0.0 < x
    requires tiers != [] ==> x <= Breakpoint(tiers, 1)
    ensures Walk(x, tiers, top) == Cumulative(tiers, 0) + (x - Breakpoint(tiers, 0)) * RateAbove(tiers, top, 0)
  {
    if tiers != [] {
      assert Breakpoint(tiers, 1) == tiers[0].width + Breakpoint(tiers[1..], 0);
    }
  }

  lemma ThresholdStep(tiers: seq<Tier>, top: real, k: nat, x: real)
    requires 1 <= k <= |tiers|
    requires x > tiers[0].width
    requires Walk(x - tiers[0].width, tiers[1..], top) ==
      Cumulative(tiers[1..], k - 1) + (x - tiers[0].width - Breakpoint(tiers[1..], k - 1)) * RateAbove(tiers[1..], top, k - 1)
    ensures Walk(x, tiers, top) == Cumulative(tiers, k) + (x - Breakpoint(tiers, k)) * RateAbove(tiers, top, k)
  {
    var w, r, tail := tiers[0].width, tiers[0].rate, tiers[1..];
    assert Walk(x, tiers, top) == w * r + Walk(x - w, tail, top);
    assert Cumulative(tiers, k) == w * r + Cumulative(tail, k - 1);
    assert Breakpoint(tiers, k) == w + Breakpoint(tail, k - 1);
    assert k < |tiers| ==> tiers[k] == tail[k - 1];
    assert RateAbove(tiers, top, k) == RateAbove(tail, top, k - 1);
    assert x - Breakpoint(tiers, k) == x - w - Breakpoint(tail, k - 1);
  }

  /** At a breakpoint the tax is exactly the cumulative tax of the tiers below. */
  lemma AtBreakpoint(tiers: seq<Tier>, top: real, m: real, k: nat)
    requires WellFormed(tiers, top, m)
    requires 1 <= k <= |tiers|
    ensures Walk(Breakpoint(tiers, k), tiers, top) == Cumulative(tiers, k)
  {
    BreakpointBelow(tiers, top, m, k - 1);
    ThresholdForm(tiers, top, m, k - 1, Breakpoint(tiers, k));
    CumulativeStep(tiers, k - 1);
  }

  lemma {:induction false} BreakpointBelow(tiers: seq<Tier>, top: real, m: real, k: nat)
    requires WellFormed(tiers, top, m)
    requires k < |tiers|
    ensures Breakpoint(tiers, k + 1) == Breakpoint(tiers, k) + tiers[k].width
  {
    if k > 0 {
      WellFormedTail(tiers, top, m);
      BreakpointBelow(tiers[1..], top, m, k - 1);
    }
  }

  lemma {:induction false} CumulativeStep(tiers: seq<Tier>, k: nat)
    requires k < |tiers|
    ensures Cumulative(tiers, k + 1) == Cumulative(tiers, k) + tiers[k].width * tiers[k].rate
  {
    if k > 0 {
      CumulativeStep(tiers[1..], k - 1);
    }
  }

  /** With rates in [0, m], the tax grows with income, and by no more than m
      per unit of income: it is monotone and continuous. */
  lemma {:induction false} WalkMonotone(tiers: seq<Tier>, top: real, m: real, a: real, b: real)
    requires WellFormed(tiers, top, m)
    requires 0.0 <= a <= b
    ensures 0.0 <= Walk(b, tiers, top) - Walk(a, tiers, top) <= m * (b - a)
    decreases |tiers|, 1
  {
    if tiers == [] {
      TopOnly(top, m, a, b);
    } else if a > tiers[0].width {
      BothAbove(tiers, top, m, a, b);
    } else if b > tiers[0].width {
      Straddle(tiers, top, m, a, b);
    } else {
      BothWithin(tiers, top, m, a, b);
    }
  }

  lemma TopOnly(top: real, m: real, a: real, b: real)
    requires 0.0 <= top <= m && a <= b
    ensures 0.0 <= Walk(b, [], top) - Walk(a, [], top) <= m * (b - a)
  {
    ScaleBetween(top, m, b - a);
    Distribute(top, b, a);
  }

  /** Both incomes spill past the first tier: the first tier's tax cancels
      and the rest of the walk decides. */
  lemma {:induction false} BothAbove(tiers: seq<Tier>, top: real, m: real, a: real, b: real)
    requires WellFormed(tiers, top, m) && tiers != []
    requires tiers[0].width < a <= b
    ensures 0.0 <= Walk(b, tiers, top) - Walk(a, tiers, top) <= m * (b - a)
    decreases |tiers|, 0
  {
    var w, tail := tiers[0].width, tiers[1..];
    var a', b' := a - w, b - w;
    WellFormedTail(tiers, top, m);
    WalkMonotone(tail, top, m, a', b');
    assert Walk(b, tiers, top) - Walk(a, tiers, top) == Walk(b', tail, top) - Walk(a', tail, top);
    SameWidth(m, b' - a', b - a);
  }

  /** a stays in the first tier and b spills past it. */
  lemma {:induction false} Straddle(tiers: seq<Tier>, top: real, m: real, a: real, b: real)
    requires WellFormed(tiers, top, m) && tiers != []
    requires 0.0 <= a <= tiers[0].width < b
    ensures 0.0 <= Walk(b, tiers, top) - Walk(a, tiers, top) <= m * (b - a)
    decreases |tiers|, 0
  {
    var w, r, tail := tiers[0].width, tiers[0].rate, tiers[1..];
    WellFormedTail(tiers, top, m);
    WalkMonotone(tail, top, m, 0.0, b - w);
    WalkAtZero(tail, top, m);
    assert Walk(a, tiers, top) == a * r;
    assert Walk(b, tiers, top) == w * r + Walk(b - w, tail, top);
    SpillBound(r, m, a, w, b);
  }

  lemma SameWidth(m: real, d: real, e: real)
    requires d == e
    ensures m * d == m * e
  {
  }

  lemma BothWithin(tiers: seq<Tier>, top: real, m: real, a: real, b: real)
    requires WellFormed(tiers, top, m) && tiers != []
    requires 0.0 <= a <= b <= tiers[0].width
    ensures 0.0 <= Walk(b, tiers, top) - Walk(a, tiers, top) <= m * (b - a)
  {
    ScaleBetween(tiers[0].rate, m, b - a);
    Distribute(tiers[0].rate, b, a);
  }

  lemma SpillBound(r: real, m: real, a: real, w: real, b: real)
    requires 0.0 <= r <= m && a <= w < b
    ensures 0.0 <= w * r - a * r && w * r - a * r + m * (b - w) <= m * (b - a)
  {
    ScaleBetween(r, m, w - a);
    Distribute(r, w, a);
    Distribute(m, b, w);
    Distribute(m, w, a);
    Distribute(m, b, a);
  }

  lemma WellFormedTail(tiers: seq<Tier>, top: real, m: real)
    requires WellFormed(tiers, top, m) && tiers != []
    ensures WellFormed(tiers[1..], top, m)
  {
    forall i | 0 <= i < |tiers[1..]| ensures tiers[1..][i].width > 0.0 && 0.0 <= tiers[1..][i].rate <= m {
      assert tiers[1..][i] == tiers[i + 1];
    }
  }

  lemma WalkAtZero(tiers: seq<Tier>, top: real, m: real)
    requires WellFormed(tiers, top, m)
    ensures Walk(0.0, tiers, top) == 0.0
  {
  }

  lemma ScaleBetween(r: real, m: real, d: real)
    requires 0.0 <= r <= m && 0.0 <= d
    ensures 0.0 <= r * d <= m * d
  {
  }

  lemma Distribute(r: real, x: real, y: real)
    ensures r * x - r * y == r * (x - y)
  {
  }

  /** The tax is never negative and never more than m times the income. */
  lemma EvaluateTaxBounds(s: Schedule, m: real, x: real)
    requires WellFormed(s.tiers, s.topRate, m)
    ensures 0.0 <= EvaluateTax(x, s)
    ensures x >= 0.0 ==> EvaluateTax(x, s) <= m * x
  {
    if x > 0.0 {
      WalkMonotone(s.tiers, s.topRate, m, 0.0, x);
      WalkAtZero(s.tiers, s.topRate, m);
    }
  }

  /** EvaluateTax is monotone and m-Lipschitz on all of the reals. */
  lemma EvaluateTaxMonotone(s: Schedule, m: real, a: real, b: real)
    requires WellFormed(s.tiers, s.topRate, m)
    requires a <= b
    ensures 0.0 <= EvaluateTax(b, s) - EvaluateTax(a, s) <= m * (b - a)
  {
    WalkAtZero(s.tiers, s.topRate, m);
    if a > 0.0 {
      WalkMonotone(s.tiers, s.topRate, m, a, b);
    } else if b > 0.0 {
      WalkMonotone(s.tiers, s.topRate, m, 0.0, b);
      ScaleBetween(m, m, -a);
      Distribute(m, b, a);
      assert m * (b - a) == m * b + m * (-a);
    } else {
      ScaleBetween(m, m, b - a);
    }
  }
}
