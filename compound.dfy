/** The compound-growth backend: a Monte Carlo of portfolio wealth with a
    contribution that grows once a year, summarised by percentile bands, the
    drawdown and growth rate of the median path, the chance of reaching a
    target, and rule-of-thumb suggestions; plus the closed-form
    growing-annuity solve behind `/suggestions`.

    The random growth factors are inputs and numpy's percentile is the
    parameter `pct`: `pct(xs, q)` is the q-th percentile of the sample xs. */
module CompoundBackend {
  import opened Numeric

  /** The request of `/simulate` (the seed is left out with the generator). */
  datatype SimRequest = SimRequest(
    initial: real,
    annualContribution: real,
    contributionGrowth: real,
    years: int,
    nSims: int,
    expectedReturn: real,
    volatility: real,
    expenseRatio: real,
    inflation: real,
    target: Option<real>,
    frequency: int)

  /** The field bounds the request model enforces before the handler runs. */
  predicate ValidRequest(req: SimRequest) {
    && req.initial >= 0.0
    && req.annualContribution >= 0.0
    && req.contributionGrowth >= 0.0
    && 1 <= req.years <= 80
    && 50 <= req.nSims <= 20000
    && req.expenseRatio >= 0.0
    && req.inflation >= 0.0
    && (req.target.Some? ==> req.target.value >= 0.0)
    && 1 <= req.frequency <= 12
  }

  // ---------------------------------------------------------------------
  // Contributions

  /** An amount grown for n years at `rate`: amount * (1 + rate)^n. */
  function Compounded(amount: real, rate: real, n: nat): real {
    amount * Pow(1.0 + rate, n)
  }

  /** One period's share of a yearly amount. */
  function PeriodShare(amount: real, freq: nat): real
    requires freq >= 1
  {
    amount / freq as real
  }

  /** `contrib_per_year`: year y contributes annual * (1 + growth)^y. */
  function YearlyContributions(annual: real, growth: real, years: nat): (r: seq<real>)
    ensures |r| == years
    ensures forall y :: 0 <= y < years ==> r[y] == Compounded(annual, growth, y)
  {
    seq(years, y requires 0 <= y < years => Compounded(annual, growth, y))
  }

  lemma MulMono(a: int, b: int, k: int)
    requires k >= 0
    ensures a <= b ==> a * k <= b * k
  {
  }

  /** q * k <= t < (q + 1) * k pins t / k to q. */
  lemma DivSlot(t: int, k: int, q: int)
    requires k > 0 && q * k <= t < (q + 1) * k
    ensures t / k == q
  {
    var d := t / k;
    assert t == d * k + t % k && 0 <= t % k < k;
    MulMono(d, q - 1, k);
    MulMono(q + 1, d, k);
  }

  /** Period t of the repeated list belongs to year t div freq: an earlier
      year while t < n * freq, year n after that. */
  lemma Slot(n: nat, freq: nat, t: nat)
    requires freq >= 1 && t < (n + 1) * freq
    ensures t < n * freq ==> t / freq < n
    ensures t >= n * freq ==> t / freq == n
  {
    var d := t / freq;
    assert t == d * freq + t % freq && 0 <= t % freq < freq;
    MulMono(n, d, freq);
    if t >= n * freq {
      DivSlot(t, freq, n);
    }
  }

  /** `np.repeat(yearly / freq, freq)`: each year's amount split evenly over
      its `freq` periods, the years in order, so that period t carries year
      t div freq's share. */
  function PerPeriod(yearly: seq<real>, freq: nat): (r: seq<real>)
    requires freq >= 1
    ensures |r| == |yearly| * freq
  {
    seq(|yearly| * freq, t requires 0 <= t < |yearly| * freq =>
      YearOfPeriod(|yearly|, freq, t); PeriodShare(yearly[t / freq], freq))
  }

  /** A period before the end falls in one of the years. */
  lemma YearOfPeriod(n: nat, freq: nat, t: nat)
    requires freq >= 1 && t < n * freq
    ensures t / freq < n
  {
    MulMono(n, t / freq, freq);
  }

  /** The repeated list is the repeated earlier years followed by the last
      year's `freq` equal shares. */
  lemma PerPeriodSplit(yearly: seq<real>, freq: nat)
    requires freq >= 1 && |yearly| > 0
    ensures PerPeriod(yearly, freq)
      == PerPeriod(yearly[..|yearly| - 1], freq) + Repeat(PeriodShare(yearly[|yearly| - 1], freq), freq)
  {
    var n := |yearly| - 1;
    var r := PerPeriod(yearly, freq);
    var prev := PerPeriod(yearly[..n], freq);
    var block := Repeat(PeriodShare(yearly[n], freq), freq);
    assert |r| == |prev + block| by {
      MulSucc(n, freq);
    }
    forall t | 0 <= t < |r|
      ensures r[t] == (prev + block)[t]
    {
      Slot(n, freq, t);
      if t < |prev| {
        assert yearly[..n][t / freq] == yearly[t / freq];
      }
    }
  }

  lemma MulSucc(n: int, k: int)
    ensures (n + 1) * k == n * k + k
  {
  }

  /** `contrib_schedule`: period t pays the contribution of year t div freq
      divided by freq. */
  function ContributionSchedule(annual: real, growth: real, years: nat, freq: nat): (r: seq<real>)
    requires freq >= 1
    ensures |r| == years * freq
  {
    PerPeriod(YearlyContributions(annual, growth, years), freq)
  }

  /** Period t pays annual * (1 + growth)^(t div freq) / freq. */
  lemma ContributionAt(annual: real, growth: real, years: nat, freq: nat, t: nat)
    requires freq >= 1 && t < years * freq
    ensures t / freq < years
    ensures ContributionSchedule(annual, growth, years, freq)[t] == PeriodShare(Compounded(annual, growth, t / freq), freq)
  {
    YearOfPeriod(years, freq, t);
  }

  lemma ShareAddsUp(x: real, freq: nat)
    requires freq >= 1
    ensures freq as real * PeriodShare(x, freq) == x
  {
  }

  /** Splitting each year over its periods keeps the total. */
  lemma {:induction false} SumPerPeriod(yearly: seq<real>, freq: nat)
    requires freq >= 1
    ensures Sum(PerPeriod(yearly, freq)) == Sum(yearly)
  {
    if |yearly| > 0 {
      var n := |yearly| - 1;
      SumPerPeriod(yearly[..n], freq);
      LastYearSum(yearly, freq);
    }
  }

  /** The last year's periods add up to the last year's amount on top of
      the earlier years' periods. */
  lemma LastYearSum(yearly: seq<real>, freq: nat)
    requires freq >= 1 && |yearly| > 0
    ensures Sum(PerPeriod(yearly, freq)) == Sum(PerPeriod(yearly[..|yearly| - 1], freq)) + yearly[|yearly| - 1]
  {
    var n := |yearly| - 1;
    var block := Repeat(PeriodShare(yearly[n], freq), freq);
    PerPeriodSplit(yearly, freq);
    SumAppend(PerPeriod(yearly[..n], freq), block);
    YearSum(yearly[n], freq);
  }

  /** A year's `freq` equal shares add up to the year's amount. */
  lemma YearSum(amount: real, freq: nat)
    requires freq >= 1
    ensures Sum(Repeat(PeriodShare(amount, freq), freq)) == amount
  {
    ConstantSum(PeriodShare(amount, freq), freq);
    ShareAddsUp(amount, freq);
  }

  /** `total_contrib`: the schedule adds up to the yearly amounts, a geometric
      series with ratio 1 + growth. */
  lemma TotalContribution(annual: real, growth: real, years: nat, freq: nat)
    requires freq >= 1
    ensures Sum(ContributionSchedule(annual, growth, years, freq)) == Sum(YearlyContributions(annual, growth, years))
    ensures growth * Sum(ContributionSchedule(annual, growth, years, freq)) == Compounded(annual, growth, years) - annual
    ensures growth == 0.0 ==> Sum(ContributionSchedule(annual, growth, years, freq)) == years as real * annual
  {
    SumPerPeriod(YearlyContributions(annual, growth, years), freq);
    GeometricYears(annual, growth, years);
    if growth == 0.0 {
      ZeroGrowthYears(annual, years);
    }
  }

  /** The yearly list grows by one entry a year. */
  lemma SumYearsStep(annual: real, growth: real, years: nat)
    requires years > 0
    ensures Sum(YearlyContributions(annual, growth, years))
      == Sum(YearlyContributions(annual, growth, years - 1)) + Compounded(annual, growth, years - 1)
  {
    var ys := YearlyContributions(annual, growth, years);
    assert ys[..years - 1] == YearlyContributions(annual, growth, years - 1);
  }

  lemma {:induction false} GeometricYears(annual: real, growth: real, years: nat)
    ensures growth * Sum(YearlyContributions(annual, growth, years)) == Compounded(annual, growth, years) - annual
  {
    if years > 0 {
      GeometricYears(annual, growth, years - 1);
      GeometricYear(annual, growth, years);
    }
  }

  /** One more year leaves the gap in the geometric-series identity unchanged. */
  lemma GeometricYear(annual: real, growth: real, years: nat)
    requires years > 0
    ensures growth * Sum(YearlyContributions(annual, growth, years)) - (Compounded(annual, growth, years) - annual)
         == growth * Sum(YearlyContributions(annual, growth, years - 1)) - (Compounded(annual, growth, years - 1) - annual)
  {
    SumYearsStep(annual, growth, years);
    GeometricStep(annual, growth, Sum(YearlyContributions(annual, growth, years - 1)), Pow(1.0 + growth, years - 1));
  }

  lemma GeometricStep(a: real, g: real, s: real, p: real)
    ensures g * (s + a * p) - (a * ((1.0 + g) * p) - a) == g * s - (a * p - a)
  {
  }

  lemma {:induction false} ZeroGrowthYears(annual: real, years: nat)
    ensures Sum(YearlyContributions(annual, 0.0, years)) == years as real * annual
  {
    if years > 0 {
      ZeroGrowthYears(annual, years - 1);
      SumYearsStep(annual, 0.0, years);
      OnePow(years - 1);
      CountStep(annual, years, Sum(YearlyContributions(annual, 0.0, years)), Sum(YearlyContributions(annual, 0.0, years - 1)));
    }
  }

  lemma CountStep(a: real, n: nat, s: real, sp: real)
    requires n > 0 && s == sp + a && sp == (n - 1) as real * a
    ensures s == n as real * a
  {
  }

  lemma {:induction false} OnePow(n: nat)
    ensures Pow(1.0, n) == 1.0
  {
    if n > 0 {
      OnePow(n - 1);
    }
  }

  // ---------------------------------------------------------------------
  // Wealth paths

  /** One period: grow by the factor, then add the contribution. */
  function Step(wealth: real, factor: real, contribution: real): real {
    wealth * factor + contribution
  }

  /** Wealth of one path after t periods. */
  function Wealth(initial: real, factors: seq<real>, contrib: seq<real>, t: nat): real
    requires t <= |factors| && t <= |contrib|
  {
    if t == 0 then initial else Step(Wealth(initial, factors, contrib, t - 1), factors[t - 1], contrib[t - 1])
  }

  lemma StepNonNegative(w: real, f: real, c: real)
    requires w >= 0.0 && f > 0.0 && c >= 0.0
    ensures Step(w, f, c) >= 0.0
  {
  }

  /** With a non-negative start and contributions and positive growth
      factors, wealth never goes negative. */
  lemma {:induction false} WealthNonNegative(initial: real, factors: seq<real>, contrib: seq<real>, t: nat)
    requires t <= |factors| && t <= |contrib|
    requires initial >= 0.0 && AllPositive(factors) && AllNonNegative(contrib)
    ensures Wealth(initial, factors, contrib, t) >= 0.0
  {
    if t > 0 {
      WealthNonNegative(initial, factors, contrib, t - 1);
      StepNonNegative(Wealth(initial, factors, contrib, t - 1), factors[t - 1], contrib[t - 1]);
    }
  }

  /** Wealth at year n from yearly contributions c, c(1+g), c(1+g)^2, ...
      paid at the end of each year into an account growing at rate r. */
  function FutureValue(c: real, r: real, g: real, n: nat): real {
    if n == 0 then 0.0 else Step(FutureValue(c, r, g, n - 1), 1.0 + r, Compounded(c, g, n - 1))
  }

  /** With every factor equal to 1 + r and one period a year, a path is the
      initial amount compounded plus the future value of the growing annuity
      that `/suggestions` solves for. */
  lemma {:induction false} SteadyWealthIsAnnuity(initial: real, annual: real, r: real, g: real, factors: seq<real>, t: nat)
    requires t <= |factors| && forall k :: 0 <= k < |factors| ==> factors[k] == 1.0 + r
    ensures t <= |ContributionSchedule(annual, g, |factors|, 1)|
      && Wealth(initial, factors, ContributionSchedule(annual, g, |factors|, 1), t)
         == Compounded(initial, r, t) + FutureValue(annual, r, g, t)
  {
    var c := ContributionSchedule(annual, g, |factors|, 1);
    assert |c| == |factors|;
    if t > 0 {
      var fv := FutureValue(annual, r, g, t - 1);
      var pay := Compounded(annual, g, t - 1);
      assert c[t - 1] == pay by {
        ContributionAt(annual, g, |factors|, 1, t - 1);
        assert (t - 1) / 1 == t - 1;
        ShareAddsUp(pay, 1);
      }
      assert Wealth(initial, factors, c, t - 1) == Compounded(initial, r, t - 1) + fv by {
        SteadyWealthIsAnnuity(initial, annual, r, g, factors, t - 1);
      }
      assert Wealth(initial, factors, c, t) == Step(Compounded(initial, r, t - 1) + fv, 1.0 + r, pay);
      SteadyStep(initial, r, t, fv, pay);
    }
  }

  lemma SteadyStep(initial: real, r: real, t: nat, fv: real, pay: real)
    requires t >= 1
    ensures Step(Compounded(initial, r, t - 1) + fv, 1.0 + r, pay) == Compounded(initial, r, t) + Step(fv, 1.0 + r, pay)
  {
    SteadyAlgebra(initial, 1.0 + r, Pow(1.0 + r, t - 1), fv, pay);
  }

  lemma SteadyAlgebra(initial: real, a: real, p: real, fv: real, c: real)
    ensures (initial * p + fv) * a + c == initial * (a * p) + (fv * a + c)
  {
  }

  /** The wealth matrix, one row per path and one column per period, filled
      column by column. */
  method SimulateWealth(initial: real, factors: seq<seq<real>>, contrib: seq<real>) returns (w: array2<real>)
    requires forall i :: 0 <= i < |factors| ==> |factors[i]| == |contrib|
    ensures fresh(w) && w.Length0 == |factors| && w.Length1 == |contrib| + 1
    ensures forall i, t :: 0 <= i < w.Length0 && 0 <= t < w.Length1 ==> w[i, t] == Wealth(initial, factors[i], contrib, t)
  {
    var n := |factors|;
    w := new real[n, |contrib| + 1];
    for i := 0 to n
      invariant forall i' :: 0 <= i' < i ==> w[i', 0] == initial
    {
      w[i, 0] := initial;
    }
    for t := 1 to |contrib| + 1
      invariant forall i', t' :: 0 <= i' < n && 0 <= t' < t ==> w[i', t'] == Wealth(initial, factors[i'], contrib, t')
    {
      GrowColumn(w, initial, factors, contrib, t);
    }
  }

  /** `wealth[:, t] = wealth[:, t-1] * growth_factors[:, t-1] + contrib_schedule[t-1]`,
      path by path; no other column changes. */
  method GrowColumn(w: array2<real>, initial: real, factors: seq<seq<real>>, contrib: seq<real>, t: nat)
    modifies w
    requires forall i :: 0 <= i < |factors| ==> |factors[i]| == |contrib|
    requires w.Length0 == |factors| && w.Length1 == |contrib| + 1 && 1 <= t <= |contrib|
    requires forall i :: 0 <= i < w.Length0 ==> w[i, t - 1] == Wealth(initial, factors[i], contrib, t - 1)
    ensures forall i :: 0 <= i < w.Length0 ==> w[i, t] == Wealth(initial, factors[i], contrib, t)
    ensures forall i, t' :: 0 <= i < w.Length0 && 0 <= t' < w.Length1 && t' != t ==> w[i, t'] == old(w[i, t'])
  {
    for i := 0 to w.Length0
      invariant forall i' :: 0 <= i' < i ==> w[i', t] == Wealth(initial, factors[i'], contrib, t)
      invariant forall i', t' :: 0 <= i' < w.Length0 && 0 <= t' < w.Length1 && t' != t ==> w[i', t'] == old(w[i', t'])
    {
      w[i, t] := w[i, t - 1] * factors[i][t - 1] + contrib[t - 1];
    }
  }

  /** Column t of the wealth matrix: every path's wealth after t periods. */
  function WealthColumn(initial: real, factors: seq<seq<real>>, contrib: seq<real>, t: nat): (r: seq<real>)
    requires forall i :: 0 <= i < |factors| ==> |factors[i]| == |contrib|
    requires t <= |contrib|
    ensures |r| == |factors|
    ensures forall i :: 0 <= i < |r| ==> r[i] == Wealth(initial, factors[i], contrib, t)
  {
    seq(|factors|, i requires 0 <= i < |factors| => Wealth(initial, factors[i], contrib, t))
  }

  // ---------------------------------------------------------------------
  // Summary statistics of the median path and the final wealth

  /** Denominators at or below zero are replaced by 1. */
  function SafeDenominator(x: real): (r: real)
    ensures r > 0.0
    ensures x > 0.0 ==> r == x
  {
    if x <= 0.0 then 1.0 else x
  }

  /** One entry of `(median_path - running_max) / safe_den`. */
  function GuardedDrawdown(x: real, peak: real): (r: real)
    ensures x <= peak ==> r <= 0.0
    ensures r == 0.0 <==> x == peak
    ensures 0.0 <= x <= peak ==> r >= -1.0
  {
    var d := (x - peak) / SafeDenominator(peak);
    assert d * SafeDenominator(peak) == x - peak;
    if 0.0 <= x <= peak && peak > 0.0 then
      RatioAtLeastMinusOne(x, peak);
      d
    else d
  }

  lemma RatioAtLeastMinusOne(x: real, peak: real)
    requires 0.0 <= x <= peak && peak > 0.0
    ensures (x - peak) / peak >= -1.0
  {
    var q := (x - peak) / peak;
    assert q * peak == x - peak;
    DivideOut(x, peak, q + 1.0);
    assert x / peak >= 0.0;
  }

  /** `drawdowns`: the median path against its running maximum, entry by entry. */
  function GuardedDrawdowns(path: seq<real>): (r: seq<real>)
    ensures |r| == |path|
  {
    var peak := RunningMax(path);
    seq(|path|, t requires 0 <= t < |path| => GuardedDrawdown(path[t], peak[t]))
  }

  /** The drawdown series is never positive, is zero exactly at a new peak,
      and is no deeper than -100% on a path that never goes negative. */
  lemma DrawdownsBounded(path: seq<real>)
    ensures forall t :: 0 <= t < |path| ==> GuardedDrawdowns(path)[t] <= 0.0
    ensures forall t :: 0 <= t < |path| ==> (GuardedDrawdowns(path)[t] == 0.0 <==> path[t] == RunningMax(path)[t])
    ensures AllNonNegative(path) ==> forall t :: 0 <= t < |path| ==> GuardedDrawdowns(path)[t] >= -1.0
  {
    var peak := RunningMax(path);
    var dd := GuardedDrawdowns(path);
    RunningMaxBounds(path);
    forall t | 0 <= t < |path|
      ensures dd[t] == GuardedDrawdown(path[t], peak[t]) && path[t] <= peak[t]
    {
    }
  }

  /** `nanmin(drawdowns[1:])` when there is more than one point, else 0. */
  function DeepestAfterFirst(dd: seq<real>): (r: real)
    ensures |dd| <= 1 ==> r == 0.0
    ensures |dd| > 1 ==> forall t :: 1 <= t < |dd| ==> r <= dd[t]
    ensures |dd| > 1 ==> exists t :: 1 <= t < |dd| && r == dd[t]
  {
    if |dd| > 1 then
      var m := Min(dd[1..]);
      assert forall t :: 1 <= t < |dd| ==> dd[t] == dd[1..][t - 1];
      assert exists t :: 1 <= t < |dd| && m == dd[t] by {
        var k :| 0 <= k < |dd[1..]| && dd[1..][k] == m;
        assert m == dd[k + 1];
      }
      m
    else 0.0
  }

  /** `max_dd`: the deepest drawdown of the median path after its first
      point; never positive, and no deeper than -100% on a path that never
      goes negative. */
  function MedianMaxDrawdown(path: seq<real>): (r: real)
    ensures r <= 0.0
    ensures AllNonNegative(path) ==> r >= -1.0
  {
    var dd := GuardedDrawdowns(path);
    DrawdownsBounded(path);
    var r := DeepestAfterFirst(dd);
    assert |dd| > 1 ==> exists t :: 1 <= t < |dd| && r == dd[t];
    r
  }

  /** The basis of `median_cagr`: flat unless the median path ends positive;
      otherwise the growth from the first positive point to the end, and the
      years between them (at least 1e-9). */
  datatype Cagr = Flat | Growth(baseIndex: nat, ratio: real, years: real)

  /** `np.argmax(path > 0)` when the last point is positive. */
  function FirstPositive(path: seq<real>, from: nat): (r: nat)
    requires from < |path| && path[|path| - 1] > 0.0
    requires forall j :: 0 <= j < from ==> path[j] <= 0.0
    ensures from <= r < |path| && path[r] > 0.0
    ensures forall j :: 0 <= j < r ==> path[j] <= 0.0
    decreases |path| - from
  {
    if path[from] > 0.0 then from else FirstPositive(path, from + 1)
  }

  function CagrBasis(path: seq<real>, freq: nat): (r: Cagr)
    requires |path| > 0 && freq >= 1
    ensures r.Flat? <==> path[|path| - 1] <= 0.0
    ensures r.Growth? ==> r.baseIndex < |path| && path[r.baseIndex] > 0.0
    ensures r.Growth? ==> forall j :: 0 <= j < r.baseIndex ==> path[j] <= 0.0
    ensures r.Growth? ==> r.ratio > 0.0 && r.ratio * path[r.baseIndex] == path[|path| - 1]
    ensures r.Growth? ==> r.years == RealMax((|path| - 1 - r.baseIndex) as real / freq as real, 1e-9)
    ensures r.Growth? ==> r.years >= 1e-9 && r.years * freq as real >= (|path| - 1 - r.baseIndex) as real
  {
    var last := path[|path| - 1];
    if last > 0.0 then
      var b := FirstPositive(path, 0);
      Growth(b, last / path[b], RealMax((|path| - 1 - b) as real / freq as real, 1e-9))
    else Flat
  }

  /** `prob_hit_target`: present exactly when a target is given. */
  function ProbHitTarget(finals: seq<real>, target: Option<real>): (r: Option<real>)
    requires |finals| > 0
    ensures r.Some? <==> target.Some?
    ensures r.Some? ==> 0.0 <= r.value <= 1.0
    ensures r.Some? ==> (r.value == 1.0 <==> forall i :: 0 <= i < |finals| ==> finals[i] >= target.value)
    ensures r.Some? ==> (r.value == 0.0 <==> forall i :: 0 <= i < |finals| ==> finals[i] < target.value)
  {
    match target
    case None => None
    case Some(x) => Some(Share(finals, v => v >= x))
  }

  // ---------------------------------------------------------------------
  // Suggestions

  /** The four messages, in the order they are appended. The increase
      message carries the two percentages it prints (before rounding). */
  datatype Suggestion =
    | IncreaseContributions(byPercent: real, growthPercent: real)
    | OnTrack
    | HighExpenseRatio
    | HighVolatility

  function Rank(s: Suggestion): nat {
    match s
    case IncreaseContributions(_, _) => 0
    case OnTrack => 1
    case HighExpenseRatio => 2
    case HighVolatility => 3
  }

  /** `if req.target:` — a target of 0 is falsy. */
  predicate TargetGiven(target: Option<real>) {
    target.Some? && target.value != 0.0
  }

  /** The suggestion list. `target / (median_final + 1e-9)` raises when the
      denominator is zero; that is `None`. */
  function Suggestions(target: Option<real>, medianFinal: real, growth: real, expenseRatio: real, volatility: real)
    : (r: Option<seq<Suggestion>>)
    ensures r.None? <==> TargetGiven(target) && medianFinal + 1e-9 == 0.0
    ensures r.Some? ==> forall i, j :: 0 <= i < j < |r.value| ==> Rank(r.value[i]) < Rank(r.value[j])
    ensures r.Some? && TargetGiven(target) ==>
      var ratio := target.value / (medianFinal + 1e-9);
      && (IncreaseContributions((ratio - 1.0) * 100.0, growth * 100.0) in r.value <==> ratio > 1.05)
      && (OnTrack in r.value <==> ratio < 0.9)
      && (forall s :: s in r.value && s.IncreaseContributions? ==> s == IncreaseContributions((ratio - 1.0) * 100.0, growth * 100.0))
    ensures r.Some? && !TargetGiven(target) ==> forall s :: s in r.value ==> Rank(s) >= 2
    ensures r.Some? ==> (HighExpenseRatio in r.value <==> expenseRatio > 0.002)
    ensures r.Some? ==> (HighVolatility in r.value <==> volatility > 0.22)
  {
    if TargetGiven(target) && medianFinal + 1e-9 == 0.0 then None
    else
      var ratio := if TargetGiven(target) then target.value / (medianFinal + 1e-9) else 1.0;
      var onTarget :=
        if !TargetGiven(target) then []
        else if ratio > 1.05 then [IncreaseContributions((ratio - 1.0) * 100.0, growth * 100.0)]
        else if ratio < 0.9 then [OnTrack]
        else [];
      var expense := if expenseRatio > 0.002 then [HighExpenseRatio] else [];
      var volatile := if volatility > 0.22 then [HighVolatility] else [];
      Some(onTarget + expense + volatile)
  }

  // ---------------------------------------------------------------------
  // The `/simulate` handler

  /** One percentile band: for each period t, the q-th percentile of every
      path's wealth after t periods. */
  function Band(initial: real, factors: seq<seq<real>>, contrib: seq<real>, q: real,
                pct: (seq<real>, real) -> real): (r: seq<real>)
    requires forall i :: 0 <= i < |factors| ==> |factors[i]| == |contrib|
    ensures |r| == |contrib| + 1
    ensures forall t :: 0 <= t <= |contrib| ==> r[t] == pct(WealthColumn(initial, factors, contrib, t), q)
  {
    seq(|contrib| + 1, t requires 0 <= t <= |contrib| => pct(WealthColumn(initial, factors, contrib, t), q))
  }

  /** A band read off the wealth matrix is the band of the model's paths. */
  lemma MatrixBand(w: array2<real>, initial: real, factors: seq<seq<real>>, contrib: seq<real>, q: real,
                   pct: (seq<real>, real) -> real)
    requires forall i :: 0 <= i < |factors| ==> |factors[i]| == |contrib|
    requires w.Length0 == |factors| && w.Length1 == |contrib| + 1
    requires forall i, t :: 0 <= i < w.Length0 && 0 <= t < w.Length1 ==> w[i, t] == Wealth(initial, factors[i], contrib, t)
    ensures ColumnBand(w, q, pct) == Band(initial, factors, contrib, q, pct)
  {
    forall t | 0 <= t <= |contrib|
      ensures Column(w, t) == WealthColumn(initial, factors, contrib, t)
    {
    }
  }

  datatype SimResult = SimResult(
    times: seq<int>,
    p10: seq<real>,
    p25: seq<real>,
    p50: seq<real>,
    p75: seq<real>,
    p90: seq<real>,
    expectedFinal: real,
    medianFinal: real,
    p10Final: real,
    p90Final: real,
    probHitTarget: Option<real>,
    medianCagr: Cagr,
    medianMaxDrawdown: real,
    totalContrib: real,
    suggestions: seq<Suggestion>)

  /** `simulate_paths` with its random factors given: `factors[i][t]` is path
      i's growth factor in period t + 1. */
  method SimulatePaths(req: SimRequest, factors: seq<seq<real>>, pct: (seq<real>, real) -> real)
    returns (res: Option<SimResult>)
    requires ValidRequest(req)
    requires |factors| == req.nSims
    requires forall i :: 0 <= i < |factors| ==> |factors[i]| == req.years * req.frequency && AllPositive(factors[i])
    ensures res.None? <==> TargetGiven(req.target) && pct(Finals(req, factors), 50.0) + 1e-9 == 0.0
    ensures res.Some? ==>
      var r := res.value;
      var contrib := Contributions(req);
      var finals := Finals(req, factors);
      && r.times == Range(|contrib| + 1)
      && r.p10 == Band(req.initial, factors, contrib, 10.0, pct)
      && r.p25 == Band(req.initial, factors, contrib, 25.0, pct)
      && r.p50 == Band(req.initial, factors, contrib, 50.0, pct)
      && r.p75 == Band(req.initial, factors, contrib, 75.0, pct)
      && r.p90 == Band(req.initial, factors, contrib, 90.0, pct)
      && r.expectedFinal == Mean(finals)
      && r.medianFinal == pct(finals, 50.0) && r.p10Final == pct(finals, 10.0) && r.p90Final == pct(finals, 90.0)
      && r.probHitTarget == ProbHitTarget(finals, req.target)
      && r.medianMaxDrawdown == MedianMaxDrawdown(r.p50)
      && r.medianCagr == CagrBasis(r.p50, req.frequency)
      && r.totalContrib == Sum(contrib)
    ensures res.Some? ==>
      var medianFinal := pct(Finals(req, factors), 50.0);
      var advice := Suggestions(req.target, medianFinal, req.contributionGrowth, req.expenseRatio, req.volatility);
      advice.Some? && res.value.suggestions == advice.value
    ensures res.Some? && WithinSample(pct) ==>
      && res.value.medianFinal >= 0.0
      && AllNonNegative(res.value.p50)
      && res.value.medianMaxDrawdown >= -1.0
  {
    var freq := req.frequency;
    var contrib := Contributions(req);
    var w := SimulateWealth(req.initial, factors, contrib);
    var p10, p25, p50, p75, p90 := ColumnPercentiles(w, pct);
    MatrixBand(w, req.initial, factors, contrib, 10.0, pct);
    MatrixBand(w, req.initial, factors, contrib, 25.0, pct);
    MatrixBand(w, req.initial, factors, contrib, 50.0, pct);
    MatrixBand(w, req.initial, factors, contrib, 75.0, pct);
    MatrixBand(w, req.initial, factors, contrib, 90.0, pct);
    var finals := Column(w, |contrib|);
    assert finals == Finals(req, factors);
    var expectedFinal := Mean(finals);
    var medianFinal := pct(finals, 50.0);
    var probHit := ProbHitTarget(finals, req.target);
    var maxDd := MedianMaxDrawdown(p50);
    var cagr := CagrBasis(p50, freq);
    var totalContrib := Sum(contrib);
    ghost var nonNegative := WithinSample(pct);
    if nonNegative {
      BandsNonNegative(req, factors, pct);
    }
    var suggestions := Suggestions(req.target, medianFinal, req.contributionGrowth, req.expenseRatio, req.volatility);
    if suggestions.None? {
      return None;
    }
    res := Some(SimResult(Range(|contrib| + 1), p10, p25, p50, p75, p90, expectedFinal, medianFinal,
                          pct(finals, 10.0), pct(finals, 90.0), probHit, cagr, maxDd, totalContrib,
                          suggestions.value));
  }

  /** `contrib_schedule` of a request. */
  function Contributions(req: SimRequest): (c: seq<real>)
    requires ValidRequest(req)
    ensures |c| == req.years * req.frequency
  {
    ContributionSchedule(req.annualContribution, req.contributionGrowth, req.years, req.frequency)
  }

  /** `wealth[:, -1]`: every path's final wealth. */
  function Finals(req: SimRequest, factors: seq<seq<real>>): (r: seq<real>)
    requires ValidRequest(req)
    requires forall i :: 0 <= i < |factors| ==> |factors[i]| == req.years * req.frequency
    ensures |r| == |factors|
  {
    WealthColumn(req.initial, factors, Contributions(req), req.years * req.frequency)
  }

  /** Every wealth column is non-negative, so a percentile that stays
      within the sample is too. */
  lemma BandsNonNegative(req: SimRequest, factors: seq<seq<real>>, pct: (seq<real>, real) -> real)
    requires ValidRequest(req) && WithinSample(pct) && |factors| == req.nSims
    requires forall i :: 0 <= i < |factors| ==> |factors[i]| == req.years * req.frequency && AllPositive(factors[i])
    ensures pct(Finals(req, factors), 50.0) >= 0.0
    ensures AllNonNegative(Band(req.initial, factors, Contributions(req), 50.0, pct))
  {
    var contrib := Contributions(req);
    ContributionsNonNegative(req);
    forall t | 0 <= t <= |contrib|
      ensures pct(WealthColumn(req.initial, factors, contrib, t), 50.0) >= 0.0
    {
      var column := WealthColumn(req.initial, factors, contrib, t);
      var k :| 0 <= k < |column| && column[k] == Min(column);
      WealthNonNegative(req.initial, factors[k], contrib, t);
    }
  }

  lemma ContributionsNonNegative(req: SimRequest)
    requires ValidRequest(req)
    ensures AllNonNegative(Contributions(req))
  {
    var c := Contributions(req);
    forall t | 0 <= t < |c|
      ensures c[t] >= 0.0
    {
      ContributionAt(req.annualContribution, req.contributionGrowth, req.years, req.frequency, t);
      ShareNonNegative(req.annualContribution, req.contributionGrowth, t / req.frequency, req.frequency);
    }
  }

  lemma ShareNonNegative(annual: real, growth: real, y: nat, freq: nat)
    requires annual >= 0.0 && growth >= 0.0 && freq >= 1
    ensures PeriodShare(Compounded(annual, growth, y), freq) >= 0.0
  {
    PowAtLeastOne(1.0 + growth, y);
  }

  // ---------------------------------------------------------------------
  // The `/suggestions` handler

  datatype SuggestRequest = SuggestRequest(
    target: real,
    horizonYears: int,
    expectedReturn: real,
    volatility: real,
    expenseRatio: real,
    initial: real,
    currentAnnualContribution: real,
    contributionGrowth: real)

  datatype Advice = Advice(year1ContributionNeeded: real, increaseOverCurrent: real)

  /** Python's `x ** n` for an int n of either sign; `0.0 ** -n` raises. */
  function IntPow(x: real, n: int): (r: Option<real>)
    ensures r.None? <==> x == 0.0 && n < 0
    ensures n >= 0 ==> r == Some(Pow(x, n))
    ensures n < 0 && r.Some? ==> r.value * Pow(x, -n) == 1.0
  {
    if n >= 0 then Some(Pow(x, n))
    else if x == 0.0 then None
    else
      PowNonZero(x, -n);
      Some(1.0 / Pow(x, -n))
  }

  /** The closed forms of the growing annuity: the future value times
      (r - g) is c(1+r)^n - c(1+g)^n, and for r == g the future value is
      n c (1+r)^(n-1). */
  lemma {:induction false} GrowingAnnuity(c: real, r: real, g: real, n: nat)
    ensures (r - g) * FutureValue(c, r, g, n) == Compounded(c, r, n) - Compounded(c, g, n)
  {
    if n > 0 {
      GrowingAnnuity(c, r, g, n - 1);
      AnnuityStep(c, r, g, n - 1, FutureValue(c, r, g, n - 1));
    }
  }

  lemma {:induction false} LevelAnnuity(c: real, r: real, n: nat)
    requires n > 0
    ensures FutureValue(c, r, r, n) == n as real * Compounded(c, r, n - 1)
  {
    if n == 1 {
      FirstYear(c, r, r);
      assert Compounded(c, r, 0) == c;
    } else {
      LevelAnnuity(c, r, n - 1);
      EqualRatesStep(c, r, n - 1, FutureValue(c, r, r, n - 1));
    }
  }

  /** After one year the annuity holds just the first payment. */
  lemma FirstYear(c: real, r: real, g: real)
    ensures FutureValue(c, r, g, 1) == c
  {
    assert Compounded(c, g, 0) == c;
  }

  /** One more year of the annuity keeps the closed form for r != g. */
  lemma AnnuityStep(c: real, r: real, g: real, m: nat, fv: real)
    requires (r - g) * fv == Compounded(c, r, m) - Compounded(c, g, m)
    ensures (r - g) * Step(fv, 1.0 + r, Compounded(c, g, m)) == Compounded(c, r, m + 1) - Compounded(c, g, m + 1)
  {
    AnnuityAlgebra(c, r, g, fv, Pow(1.0 + r, m), Pow(1.0 + g, m));
  }

  lemma AnnuityAlgebra(c: real, r: real, g: real, fv: real, pa: real, pb: real)
    requires (r - g) * fv == c * pa - c * pb
    ensures (r - g) * (fv * (1.0 + r) + c * pb) == c * ((1.0 + r) * pa) - c * ((1.0 + g) * pb)
  {
  }

  /** One more year of the annuity keeps the closed form for r == g. */
  lemma EqualRatesStep(c: real, r: real, m: nat, fv: real)
    requires m >= 1 && fv == m as real * Compounded(c, r, m - 1)
    ensures Step(fv, 1.0 + r, Compounded(c, r, m)) == (m + 1) as real * Compounded(c, r, m)
  {
    EqualRatesAlgebra(c, 1.0 + r, m as real, Pow(1.0 + r, m - 1));
  }

  lemma EqualRatesAlgebra(c: real, a: real, m: real, p: real)
    ensures m * (c * p) * a + c * (a * p) == (m + 1.0) * (c * (a * p))
  {
  }

  /** `annuity_factor`: `n (1+r)^(n-1)` when r and g are within 1e-6,
      `((1+r)^n - (1+g)^n) / (r - g)` otherwise; `None` where a power of
      zero to a negative exponent raises. */
  function AnnuityFactor(r: real, g: real, n: int): (f: Option<real>)
    ensures f.None? <==> ((Abs(r - g) < 1e-6 && 1.0 + r == 0.0 && n - 1 < 0)
                          || (Abs(r - g) >= 1e-6 && n < 0 && (1.0 + r == 0.0 || 1.0 + g == 0.0)))
  {
    if Abs(r - g) < 1e-6 then
      match IntPow(1.0 + r, n - 1)
      case None => None
      case Some(p) => Some(n as real * p)
    else
      match (IntPow(1.0 + r, n), IntPow(1.0 + g, n))
      case (Some(pr), Some(pg)) => Some((pr - pg) / (r - g))
      case _ => None
  }

  /** Where the branch taken is exact (r == g, or r and g at least 1e-6
      apart) and n >= 1, the factor is the future value of a growing annuity
      of 1 a year. */
  lemma AnnuityFactorExact(r: real, g: real, n: int)
    requires n >= 1 && (r == g || Abs(r - g) >= 1e-6)
    ensures AnnuityFactor(r, g, n) == Some(FutureValue(1.0, r, g, n))
  {
    if r == g {
      LevelFactor(r, n);
    } else {
      GrowingFactor(r, g, n);
    }
  }

  lemma LevelFactor(r: real, n: nat)
    requires n >= 1
    ensures AnnuityFactor(r, r, n) == Some(FutureValue(1.0, r, r, n))
  {
    var p := Pow(1.0 + r, n - 1);
    assert Abs(r - r) < 1e-6 && IntPow(1.0 + r, n - 1) == Some(p);
    assert AnnuityFactor(r, r, n).Some? && AnnuityFactor(r, r, n).value == n as real * p;
    assert FutureValue(1.0, r, r, n) == n as real * p by {
      LevelAnnuity(1.0, r, n);
    }
  }

  lemma GrowingFactor(r: real, g: real, n: nat)
    requires Abs(r - g) >= 1e-6
    ensures AnnuityFactor(r, g, n) == Some(FutureValue(1.0, r, g, n))
  {
    var pr, pg := Pow(1.0 + r, n), Pow(1.0 + g, n);
    assert IntPow(1.0 + r, n) == Some(pr) && IntPow(1.0 + g, n) == Some(pg);
    assert AnnuityFactor(r, g, n).Some? && AnnuityFactor(r, g, n).value == (pr - pg) / (r - g);
    GrowingQuotient(r, g, n);
  }

  lemma GrowingQuotient(r: real, g: real, n: nat)
    requires r != g
    ensures (Pow(1.0 + r, n) - Pow(1.0 + g, n)) / (r - g) == FutureValue(1.0, r, g, n)
  {
    GrowingAnnuity(1.0, r, g, n);
    DivideOut(Compounded(1.0, r, n) - Compounded(1.0, g, n), r - g, FutureValue(1.0, r, g, n));
  }

  lemma DivideOut(x: real, d: real, y: real)
    requires d != 0.0 && d * y == x
    ensures x / d == y
  {
  }

  /** The contribution solve: (target - initial grown) / factor, with the
      factor floored at 1e-9 and the answer at 0. */
  function NeededContribution(target: real, grownInitial: real, factor: real): (c: real)
    ensures c >= 0.0
    ensures factor >= 1e-9 && c > 0.0 ==> grownInitial + c * factor == target
    ensures factor >= 1e-9 && c == 0.0 ==> grownInitial >= target
  {
    var c := RealMax((target - grownInitial) / RealMax(factor, 1e-9), 0.0);
    if factor >= 1e-9 && c > 0.0 then
      DivideOut(target - grownInitial, factor, c);
      c
    else c
  }

  /** `suggest`: the first-year contribution that, growing by g a year and
      compounding at r = expected return - expense ratio, reaches the target
      after n years, floored at 0; `None` where Python's power raises. */
  function Suggest(req: SuggestRequest): (res: Option<Advice>)
    ensures res.Some? ==> res.value.year1ContributionNeeded >= 0.0
    ensures res.Some? ==> res.value.increaseOverCurrent == res.value.year1ContributionNeeded - req.currentAnnualContribution
    ensures req.horizonYears >= 1 ==> res.Some?
  {
    var r := req.expectedReturn - req.expenseRatio;
    var g := req.contributionGrowth;
    var n := req.horizonYears;
    match (AnnuityFactor(r, g, n), IntPow(1.0 + r, n))
    case (Some(factor), Some(growth)) =>
      var needed := NeededContribution(req.target, req.initial * growth, factor);
      Some(Advice(needed, needed - req.currentAnnualContribution))
    case _ => None
  }

  /** The solve is right: where the annuity factor is the exact growing
      annuity (r == g, or r and g at least 1e-6 apart) and is at least 1e-9,
      a positive answer reaches the target exactly, and an answer of 0 means
      the initial amount alone already gets there. */
  lemma SuggestReachesTarget(req: SuggestRequest)
    requires req.horizonYears >= 1
    requires var r := req.expectedReturn - req.expenseRatio; var g := req.contributionGrowth;
      (r == g || Abs(r - g) >= 1e-6) && FutureValue(1.0, r, g, req.horizonYears) >= 1e-9
    ensures var r := req.expectedReturn - req.expenseRatio; var g := req.contributionGrowth; var n := req.horizonYears;
      var c := Suggest(req).value.year1ContributionNeeded;
      && (c > 0.0 ==> Compounded(req.initial, r, n) + FutureValue(c, r, g, n) == req.target)
      && (c == 0.0 ==> Compounded(req.initial, r, n) >= req.target)
  {
    var r := req.expectedReturn - req.expenseRatio;
    var g := req.contributionGrowth;
    var n := req.horizonYears;
    AnnuityFactorExact(r, g, n);
    var c := Suggest(req).value.year1ContributionNeeded;
    FutureValueScales(c, r, g, n);
  }

  lemma {:induction false} FutureValueScales(c: real, r: real, g: real, n: nat)
    ensures FutureValue(c, r, g, n) == c * FutureValue(1.0, r, g, n)
  {
    if n > 0 {
      FutureValueScales(c, r, g, n - 1);
      ScaleStep(c, 1.0 + r, FutureValue(1.0, r, g, n - 1), Pow(1.0 + g, n - 1));
    }
  }

  lemma ScaleStep(c: real, a: real, fv: real, p: real)
    ensures Step(c * fv, a, c * p) == c * Step(fv, a, 1.0 * p)
  {
  }
}
