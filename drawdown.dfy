/** The drawdown backend: a Monte Carlo of price paths that start at 1 and
    compound random growth factors, turned into drawdowns from the running
    peak. It reports percentile bands of the drawdown, statistics of each
    path's deepest drawdown, and how many months the median price path takes
    to climb back to the peak it had at its deepest point.

    The random growth factors are inputs (`factors[i][t]` is path i's
    factor in period t + 1; numpy's `exp` makes each one positive), and
    numpy's percentile is the parameter `pct`. */
module DrawdownBackend {
  import opened Numeric
  import opened Calendar

  datatype DrawdownRequest = DrawdownRequest(
    years: int,
    expectedReturn: real,
    volatility: real,
    expenseRatio: real,
    nSims: int,
    frequency: int,
    startDate: Option<Date>,
    decimals: int)

  // ---------------------------------------------------------------------
  // One price path

  /** The product of a sequence, multiplied from the left. */
  function Product(s: seq<real>): real {
    if |s| == 0 then 1.0 else Product(s[..|s| - 1]) * s[|s| - 1]
  }

  lemma {:induction false} ProductPositive(s: seq<real>)
    requires AllPositive(s)
    ensures Product(s) > 0.0
  {
    if |s| > 0 {
      assert AllPositive(s[..|s| - 1]) by {
        assert forall k :: 0 <= k < |s| - 1 ==> s[..|s| - 1][k] == s[k];
      }
      ProductPositive(s[..|s| - 1]);
      assert s[|s| - 1] > 0.0;
    }
  }

  /** One row of `prices`: 1 followed by `cumprod(factors)`, so entry t is
      the product of the first t factors; each entry is the one before it
      times that period's factor. */
  function Prices(f: seq<real>): (r: seq<real>)
    ensures |r| == |f| + 1 && r[0] == 1.0
    ensures forall t :: 0 <= t < |f| ==> r[t + 1] == r[t] * f[t]
  {
    var r := seq(|f| + 1, t requires 0 <= t <= |f| => Product(f[..t]));
    assert forall t :: 0 <= t < |f| ==> f[..t + 1][..t] == f[..t];
    r
  }

  /** Positive factors give positive prices. */
  lemma PricesPositive(f: seq<real>)
    requires AllPositive(f)
    ensures AllPositive(Prices(f))
  {
    forall t | 0 <= t <= |f|
      ensures Prices(f)[t] > 0.0
    {
      assert AllPositive(f[..t]) by {
        assert forall k :: 0 <= k < t ==> f[..t][k] == f[k];
      }
      ProductPositive(f[..t]);
    }
  }

  /** `(prices - rolling_peak) / rolling_peak` on one row. */
  function Drawdowns(p: seq<real>): (r: seq<real>)
    requires AllPositive(p)
    ensures |r| == |p|
    ensures forall t :: 0 <= t < |p| ==> r[t] == (p[t] - RunningMax(p)[t]) / RunningMax(p)[t]
  {
    RunningMaxBounds(p);
    seq(|p|, t requires 0 <= t < |p| => (p[t] - RunningMax(p)[t]) / RunningMax(p)[t])
  }

  /** With positive prices every drawdown lies in (-1, 0], it is 0 exactly
      at a new peak, and the first one is 0. */
  lemma DrawdownBounds(p: seq<real>)
    requires AllPositive(p)
    ensures forall t :: 0 <= t < |p| ==> -1.0 < Drawdowns(p)[t] <= 0.0
    ensures forall t :: 0 <= t < |p| ==> (Drawdowns(p)[t] == 0.0 <==> p[t] == RunningMax(p)[t])
    ensures |p| > 0 ==> Drawdowns(p)[0] == 0.0
  {
    RunningMaxBounds(p);
    forall t | 0 <= t < |p|
      ensures -1.0 < Drawdowns(p)[t] <= 0.0
      ensures Drawdowns(p)[t] == 0.0 <==> p[t] == RunningMax(p)[t]
    {
      BelowPeak(p[t], RunningMax(p)[t]);
    }
    if |p| > 0 {
      assert RunningMax(p)[0] in p[..1];
    }
  }

  /** The relative distance of a positive price below its peak. */
  lemma BelowPeak(x: real, m: real)
    requires 0.0 < x <= m
    ensures -1.0 < (x - m) / m <= 0.0
    ensures (x - m) / m == 0.0 <==> x == m
  {
    var d := (x - m) / m;
    assert d * m == x - m;
    if d <= -1.0 {
      assert false;
    }
  }

  /** The drawdown row of the path driven by factors f. */
  function PathDrawdowns(f: seq<real>): (r: seq<real>)
    requires AllPositive(f)
    ensures |r| == |f| + 1
    ensures forall t :: 0 <= t <= |f| ==> -1.0 < r[t] <= 0.0
    ensures r[0] == 0.0
  {
    PricesPositive(f);
    DrawdownBounds(Prices(f));
    Drawdowns(Prices(f))
  }

  /** `dd.min(axis=1)` for one path: its deepest drawdown, which lies in
      (-1, 0] and is no deeper than any other entry of the row. */
  function MaxDrawdown(f: seq<real>): (r: real)
    requires AllPositive(f)
    ensures -1.0 < r <= 0.0
    ensures forall t :: 0 <= t <= |f| ==> r <= PathDrawdowns(f)[t]
  {
    var dd := PathDrawdowns(f);
    var k :| 0 <= k < |dd| && dd[k] == Min(dd);
    Min(dd)
  }

  lemma Grows(a: real, b: real)
    requires a > 0.0 && b >= 1.0
    ensures a * b >= a
  {
    assert a * (b - 1.0) >= 0.0;
  }

  /** A factor of at least 1 does not lower the price. */
  lemma PriceStep(f: seq<real>, k: nat)
    requires AllPositive(f) && k < |f| && f[k] >= 1.0
    ensures Prices(f)[k] <= Prices(f)[k + 1]
  {
    PricesPositive(f);
    var p := Prices(f);
    assert p[k] > 0.0;
    Grows(p[k], f[k]);
  }

  /** With no period losing value (every factor at least 1) the path has
      no drawdown at all. */
  lemma SteadyGrowthNoDrawdown(f: seq<real>)
    requires forall k :: 0 <= k < |f| ==> f[k] >= 1.0
    ensures forall t :: 0 <= t <= |f| ==> PathDrawdowns(f)[t] == 0.0
  {
    assert AllPositive(f);
    var p := Prices(f);
    forall k | 0 <= k < |p| - 1
      ensures p[k] <= p[k + 1]
    {
      PriceStep(f, k);
    }
    RunningMaxOfRising(p);
    PricesPositive(f);
    DrawdownBounds(p);
  }

  // ---------------------------------------------------------------------
  // All paths

  predicate ValidHorizon(req: DrawdownRequest) {
    req.years >= 0 && req.frequency >= 1 && req.nSims >= 1
  }

  /** `T`: the number of periods simulated. */
  function Periods(req: DrawdownRequest): nat
    requires ValidHorizon(req)
  {
    req.years * req.frequency
  }

  /** One positive factor per path and period. */
  predicate FactorsFit(req: DrawdownRequest, factors: seq<seq<real>>)
    requires ValidHorizon(req)
  {
    |factors| == req.nSims
    && forall i :: 0 <= i < |factors| ==> |factors[i]| == Periods(req) && AllPositive(factors[i])
  }

  /** `prices[:, t]`. */
  function PriceColumn(req: DrawdownRequest, factors: seq<seq<real>>, t: nat): (r: seq<real>)
    requires ValidHorizon(req) && FactorsFit(req, factors) && t <= Periods(req)
    ensures |r| == |factors| && forall i :: 0 <= i < |factors| ==> r[i] == Prices(factors[i])[t]
  {
    seq(|factors|, i requires 0 <= i < |factors| => Prices(factors[i])[t])
  }

  /** `dd[:, t]`. */
  function DrawdownColumn(req: DrawdownRequest, factors: seq<seq<real>>, t: nat): (r: seq<real>)
    requires ValidHorizon(req) && FactorsFit(req, factors) && t <= Periods(req)
    ensures |r| == |factors| && forall i :: 0 <= i < |factors| ==> r[i] == PathDrawdowns(factors[i])[t]
  {
    seq(|factors|, i requires 0 <= i < |factors| => PathDrawdowns(factors[i])[t])
  }

  /** `np.percentile(dd, q, axis=0)`. */
  function DrawdownBand(req: DrawdownRequest, factors: seq<seq<real>>, q: real, pct: (seq<real>, real) -> real): (r: seq<real>)
    requires ValidHorizon(req) && FactorsFit(req, factors)
    ensures |r| == Periods(req) + 1
    ensures forall t :: 0 <= t < |r| ==> r[t] == pct(DrawdownColumn(req, factors, t), q)
  {
    seq(Periods(req) + 1, t requires 0 <= t <= Periods(req) => pct(DrawdownColumn(req, factors, t), q))
  }

  /** `max_dd_per_path`. */
  function MaxDrawdowns(req: DrawdownRequest, factors: seq<seq<real>>): (r: seq<real>)
    requires ValidHorizon(req) && FactorsFit(req, factors)
    ensures |r| == |factors| && forall i :: 0 <= i < |factors| ==> r[i] == MaxDrawdown(factors[i])
  {
    seq(|factors|, i requires 0 <= i < |factors| => MaxDrawdown(factors[i]))
  }

  /** Every band lies in (-1, 0] and starts at 0, for a percentile that
      stays within the sample. */
  lemma BandWithin(req: DrawdownRequest, factors: seq<seq<real>>, q: real, pct: (seq<real>, real) -> real)
    requires ValidHorizon(req) && FactorsFit(req, factors) && WithinSample(pct)
    ensures forall t :: 0 <= t <= Periods(req) ==> -1.0 < DrawdownBand(req, factors, q, pct)[t] <= 0.0
    ensures DrawdownBand(req, factors, q, pct)[0] == 0.0
  {
    forall t | 0 <= t <= Periods(req)
      ensures -1.0 < pct(DrawdownColumn(req, factors, t), q) <= 0.0
    {
      PercentileAbove(pct, DrawdownColumn(req, factors, t), q, -1.0, 0.0);
    }
    var first := DrawdownColumn(req, factors, 0);
    PercentileWithin(pct, first, q, 0.0, 0.0);
  }

  /** With a single path every band is that path's drawdown series,
      whatever the percentile. */
  lemma SinglePathBands(req: DrawdownRequest, factors: seq<seq<real>>, q: real, pct: (seq<real>, real) -> real)
    requires ValidHorizon(req) && FactorsFit(req, factors) && WithinSample(pct) && |factors| == 1
    ensures forall t :: 0 <= t <= Periods(req) ==> DrawdownBand(req, factors, q, pct)[t] == PathDrawdowns(factors[0])[t]
  {
    forall t | 0 <= t <= Periods(req)
      ensures pct(DrawdownColumn(req, factors, t), q) == PathDrawdowns(factors[0])[t]
    {
      PercentileOfOne(pct, DrawdownColumn(req, factors, t), q);
    }
  }

  /** Every percentile of the per-path deepest drawdowns lies in (-1, 0],
      for a percentile that stays within the sample. */
  lemma MaxDrawdownStatWithin(req: DrawdownRequest, factors: seq<seq<real>>, q: real, pct: (seq<real>, real) -> real)
    requires ValidHorizon(req) && FactorsFit(req, factors) && WithinSample(pct)
    ensures -1.0 < pct(MaxDrawdowns(req, factors), q) <= 0.0
  {
    PercentileAbove(pct, MaxDrawdowns(req, factors), q, -1.0, 0.0);
  }

  // ---------------------------------------------------------------------
  // The median path and its recovery

  /** `med_path = np.percentile(prices, 50, axis=0)`. */
  function MedianPath(req: DrawdownRequest, factors: seq<seq<real>>, pct: (seq<real>, real) -> real): (r: seq<real>)
    requires ValidHorizon(req) && FactorsFit(req, factors)
    ensures |r| == Periods(req) + 1
    ensures forall t :: 0 <= t < |r| ==> r[t] == pct(PriceColumn(req, factors, t), 50.0)
  {
    seq(Periods(req) + 1, t requires 0 <= t <= Periods(req) => pct(PriceColumn(req, factors, t), 50.0))
  }

  /** A median of positive prices is positive, so the median path's
      drawdowns never divide by zero. */
  lemma MedianPathPositive(req: DrawdownRequest, factors: seq<seq<real>>, pct: (seq<real>, real) -> real)
    requires ValidHorizon(req) && FactorsFit(req, factors) && WithinSample(pct)
    ensures AllPositive(MedianPath(req, factors, pct))
  {
    forall t | 0 <= t <= Periods(req)
      ensures pct(PriceColumn(req, factors, t), 50.0) > 0.0
    {
      var column := PriceColumn(req, factors, t);
      forall i | 0 <= i < |column|
        ensures column[i] > 0.0
      {
        PricesPositive(factors[i]);
      }
      PercentileAbove(pct, column, 50.0, 0.0, Max(column));
    }
  }

  /** `med_dd`. */
  function MedianDrawdowns(req: DrawdownRequest, factors: seq<seq<real>>, pct: (seq<real>, real) -> real): (r: seq<real>)
    requires ValidHorizon(req) && FactorsFit(req, factors) && AllPositive(MedianPath(req, factors, pct))
    ensures |r| == Periods(req) + 1
    ensures forall t :: 0 <= t < |r| ==> -1.0 < r[t] <= 0.0
  {
    DrawdownBounds(MedianPath(req, factors, pct));
    Drawdowns(MedianPath(req, factors, pct))
  }

  /** The first month at or after `from` whose price is back at `level`. */
  function FirstRecovered(path: seq<real>, level: real, from: nat): (r: Option<nat>)
    ensures r.Some? ==> from <= r.value < |path| && path[r.value] >= level
    ensures r.Some? ==> forall j :: from <= j < r.value ==> path[j] < level
    ensures r.None? <==> forall j :: from <= j < |path| ==> path[j] < level
    decreases |path| - from
  {
    if from >= |path| then None
    else if path[from] >= level then Some(from)
    else FirstRecovered(path, level, from + 1)
  }

  /** `rec_idx`: the first month from the trough on that is back at the
      trough's peak, or the trough itself when none is. */
  function RecoveryIndex(path: seq<real>, level: real, trough: nat): (r: nat)
    requires trough < |path|
    ensures trough <= r < |path|
  {
    match FirstRecovered(path, level, trough)
    case None => trough
    case Some(j) => j
  }

  /** The search loop of lines 84-87, stopping at the first recovered
      month. */
  method RecoverySearch(medPath: seq<real>, medPeak: seq<real>, trough: nat) returns (rec: nat)
    requires trough < |medPath| == |medPeak|
    ensures rec == RecoveryIndex(medPath, medPeak[trough], trough)
  {
    rec := trough;
    var prevPeak := medPeak[trough];
    for j := trough to |medPath|
      invariant rec == trough
      invariant forall k :: trough <= k < j ==> medPath[k] < prevPeak
    {
      if medPath[j] >= prevPeak {
        rec := j;
        break;
      }
    }
  }

  /** `trough_idx`: the first month of the median path's deepest drawdown. */
  function Trough(req: DrawdownRequest, factors: seq<seq<real>>, pct: (seq<real>, real) -> real): (r: nat)
    requires ValidHorizon(req) && FactorsFit(req, factors) && AllPositive(MedianPath(req, factors, pct))
    ensures r <= Periods(req)
  {
    ArgMin(MedianDrawdowns(req, factors, pct))
  }

  /** `recovery_months` for a path and its trough: months from the trough
      until the path is back at the peak it had there. */
  function RecoveryMonthsOf(path: seq<real>, trough: nat): int
    requires trough < |path|
  {
    IntMax(0, RecoveryIndex(path, RunningMax(path)[trough], trough) - trough)
  }

  /** `recovery_months` of the median path. */
  function RecoveryMonths(req: DrawdownRequest, factors: seq<seq<real>>, pct: (seq<real>, real) -> real): int
    requires ValidHorizon(req) && FactorsFit(req, factors) && AllPositive(MedianPath(req, factors, pct))
  {
    RecoveryMonthsOf(MedianPath(req, factors, pct), Trough(req, factors, pct))
  }

  /** The recovery takes between 0 and the months left after the trough;
      when it is positive the path is back at the trough's peak after
      exactly that many months and below it before; and it is 0 exactly
      when the trough is already at its peak or the path never gets back
      there. */
  lemma RecoveryMeaning(path: seq<real>, trough: nat)
    requires trough < |path|
    ensures 0 <= RecoveryMonthsOf(path, trough) < |path| - trough
    ensures var months, level := RecoveryMonthsOf(path, trough), RunningMax(path)[trough];
      months > 0 ==>
        path[trough + months] >= level && forall j :: trough <= j < trough + months ==> path[j] < level
    ensures RecoveryMonthsOf(path, trough) == 0 <==>
      path[trough] >= RunningMax(path)[trough]
      || forall j :: trough <= j < |path| ==> path[j] < RunningMax(path)[trough]
  {
    var level := RunningMax(path)[trough];
    var first := FirstRecovered(path, level, trough);
    if first.Some? && first.value == trough {
      assert path[trough] >= level;
    }
  }

  /** On the median path the recovery fits in the months after its
      trough. */
  lemma RecoveryWithinHorizon(req: DrawdownRequest, factors: seq<seq<real>>, pct: (seq<real>, real) -> real)
    requires ValidHorizon(req) && FactorsFit(req, factors) && AllPositive(MedianPath(req, factors, pct))
    ensures 0 <= RecoveryMonths(req, factors, pct) <= Periods(req) - Trough(req, factors, pct)
  {
    RecoveryMeaning(MedianPath(req, factors, pct), Trough(req, factors, pct));
  }

  /** The recovery is reported as 0 exactly when the median path has no
      drawdown at all or never climbs back to the trough's peak: a path
      that never recovers reads the same as one that never fell. */
  lemma RecoveryMonthsZero(req: DrawdownRequest, factors: seq<seq<real>>, pct: (seq<real>, real) -> real)
    requires ValidHorizon(req) && FactorsFit(req, factors) && AllPositive(MedianPath(req, factors, pct))
    ensures var path, trough := MedianPath(req, factors, pct), Trough(req, factors, pct);
      RecoveryMonths(req, factors, pct) == 0 <==>
        MedianDrawdowns(req, factors, pct)[trough] == 0.0
        || forall j :: trough <= j < |path| ==> path[j] < RunningMax(path)[trough]
  {
    var path, trough := MedianPath(req, factors, pct), Trough(req, factors, pct);
    RecoveryMeaning(path, trough);
    DrawdownBounds(path);
    RunningMaxBounds(path);
    assert path[trough] >= RunningMax(path)[trough] <==> path[trough] == RunningMax(path)[trough];
  }

  // ---------------------------------------------------------------------
  // The handler

  datatype DrawdownResponse = DrawdownResponse(
    labels: seq<Date>,
    p10: seq<real>, p25: seq<real>, p50: seq<real>, p75: seq<real>, p90: seq<real>,
    medianMaxDrawdown: real,
    p10MaxDrawdown: real,
    p90MaxDrawdown: real,
    medianRecoveryMonths: int,
    digits: int)

  /** What the `/drawdown` response holds, before rounding. */
  predicate DrawdownOk(req: DrawdownRequest, factors: seq<seq<real>>, start: Date, pct: (seq<real>, real) -> real, r: DrawdownResponse)
    requires ValidDate(start) && ValidHorizon(req) && FactorsFit(req, factors)
    requires AllPositive(MedianPath(req, factors, pct))
  {
    var T := Periods(req);
    && |r.labels| == T + 1
    && (forall i :: 0 <= i <= T ==> AddMonths(start, i) == Some(r.labels[i]))
    && r.p10 == DrawdownBand(req, factors, 10.0, pct) && r.p25 == DrawdownBand(req, factors, 25.0, pct)
    && r.p50 == DrawdownBand(req, factors, 50.0, pct) && r.p75 == DrawdownBand(req, factors, 75.0, pct)
    && r.p90 == DrawdownBand(req, factors, 90.0, pct)
    && r.medianMaxDrawdown == pct(MaxDrawdowns(req, factors), 50.0)
    && r.p10MaxDrawdown == pct(MaxDrawdowns(req, factors), 10.0)
    && r.p90MaxDrawdown == pct(MaxDrawdowns(req, factors), 90.0)
    && r.medianRecoveryMonths == RecoveryMonths(req, factors, pct)
    && r.digits == IntMax(0, req.decimals)
  }

  /** What a response guarantees for a percentile that stays within the
      sample: every band and drawdown statistic lies in (-1, 0], the bands
      start at 0, and the recovery fits in the simulated months. */
  lemma ResponseWithin(req: DrawdownRequest, factors: seq<seq<real>>, start: Date, pct: (seq<real>, real) -> real, r: DrawdownResponse)
    requires ValidDate(start) && ValidHorizon(req) && FactorsFit(req, factors)
    requires AllPositive(MedianPath(req, factors, pct)) && WithinSample(pct)
    requires DrawdownOk(req, factors, start, pct, r)
    ensures -1.0 < r.medianMaxDrawdown <= 0.0 && -1.0 < r.p10MaxDrawdown <= 0.0 && -1.0 < r.p90MaxDrawdown <= 0.0
    ensures forall t :: 0 <= t <= Periods(req) ==> -1.0 < r.p50[t] <= 0.0
    ensures r.p10[0] == 0.0 && r.p50[0] == 0.0 && r.p90[0] == 0.0
    ensures 0 <= r.medianRecoveryMonths <= Periods(req)
  {
    MaxDrawdownStatWithin(req, factors, 50.0, pct);
    MaxDrawdownStatWithin(req, factors, 10.0, pct);
    MaxDrawdownStatWithin(req, factors, 90.0, pct);
    BandWithin(req, factors, 10.0, pct);
    BandWithin(req, factors, 50.0, pct);
    BandWithin(req, factors, 90.0, pct);
    RecoveryWithinHorizon(req, factors, pct);
  }

  /** The `/drawdown` handler with its random factors and today's date
      given, for a percentile that stays within the sample (so the median
      path is positive and its drawdown never divides by zero). It fails
      only where a label's year leaves the calendar. */
  method Drawdown(req: DrawdownRequest, factors: seq<seq<real>>, today: Date, pct: (seq<real>, real) -> real)
    returns (res: Option<DrawdownResponse>)
    requires ValidDate(today) && (req.startDate.Some? ==> ValidDate(req.startDate.value))
    requires ValidHorizon(req) && FactorsFit(req, factors) && WithinSample(pct)
    ensures var start := if req.startDate.Some? then req.startDate.value else today;
      res.None? <==> MonthLabels(start, Periods(req) + 1).None?
    ensures res.Some? ==> (AllPositive(MedianPath(req, factors, pct)) &&
      DrawdownOk(req, factors, if req.startDate.Some? then req.startDate.value else today, pct, res.value))
  {
    var start := if req.startDate.Some? then req.startDate.value else today;
    MedianPathPositive(req, factors, pct);
    res := Respond(req, factors, start, pct);
  }

  /** The handler once the median path is known to be positive. */
  method Respond(req: DrawdownRequest, factors: seq<seq<real>>, start: Date, pct: (seq<real>, real) -> real)
    returns (res: Option<DrawdownResponse>)
    requires ValidDate(start) && ValidHorizon(req) && FactorsFit(req, factors)
    requires AllPositive(MedianPath(req, factors, pct))
    ensures res.None? <==> MonthLabels(start, Periods(req) + 1).None?
    ensures res.Some? ==> DrawdownOk(req, factors, start, pct, res.value)
  {
    var T := req.years * req.frequency;
    var p10, p25, p50, p75, p90 := DrawdownBands(req, factors, pct);
    var medianMaxDd, p10MaxDd, p90MaxDd := MaxDrawdownStats(req, factors, pct);
    var recoveryMonths := MedianRecovery(req, factors, pct);
    var labels := MonthLabels(start, T + 1);
    if labels.None? {
      return None;
    }
    var digits := IntMax(0, req.decimals);
    res := Some(DrawdownResponse(labels.value, p10, p25, p50, p75, p90, medianMaxDd, p10MaxDd, p90MaxDd,
                                 recoveryMonths, digits));
  }

  /** Lines 78-88: the median path, its peak and drawdown, the trough and
      the recovery search. */
  method MedianRecovery(req: DrawdownRequest, factors: seq<seq<real>>, pct: (seq<real>, real) -> real)
    returns (recoveryMonths: int)
    requires ValidHorizon(req) && FactorsFit(req, factors) && AllPositive(MedianPath(req, factors, pct))
    ensures recoveryMonths == RecoveryMonths(req, factors, pct)
  {
    var medPath := MedianPath(req, factors, pct);
    var medPeak := RunningMax(medPath);
    var troughIdx := ArgMin(MedianDrawdowns(req, factors, pct));
    var recIdx := RecoverySearch(medPath, medPeak, troughIdx);
    recoveryMonths := IntMax(0, recIdx - troughIdx);
    assert recoveryMonths == RecoveryMonthsOf(medPath, troughIdx);
  }

  /** Lines 67-71: the five percentile bands of the drawdown matrix. */
  method DrawdownBands(req: DrawdownRequest, factors: seq<seq<real>>, pct: (seq<real>, real) -> real)
    returns (p10: seq<real>, p25: seq<real>, p50: seq<real>, p75: seq<real>, p90: seq<real>)
    requires ValidHorizon(req) && FactorsFit(req, factors)
    ensures p10 == DrawdownBand(req, factors, 10.0, pct) && p25 == DrawdownBand(req, factors, 25.0, pct)
    ensures p50 == DrawdownBand(req, factors, 50.0, pct) && p75 == DrawdownBand(req, factors, 75.0, pct)
    ensures p90 == DrawdownBand(req, factors, 90.0, pct)
  {
    p10, p25 := DrawdownBand(req, factors, 10.0, pct), DrawdownBand(req, factors, 25.0, pct);
    p50, p75 := DrawdownBand(req, factors, 50.0, pct), DrawdownBand(req, factors, 75.0, pct);
    p90 := DrawdownBand(req, factors, 90.0, pct);
  }

  /** Lines 73-76: the median, 10th and 90th percentiles of the per-path
      deepest drawdowns. */
  method MaxDrawdownStats(req: DrawdownRequest, factors: seq<seq<real>>, pct: (seq<real>, real) -> real)
    returns (median: real, p10: real, p90: real)
    requires ValidHorizon(req) && FactorsFit(req, factors)
    ensures median == pct(MaxDrawdowns(req, factors), 50.0)
    ensures p10 == pct(MaxDrawdowns(req, factors), 10.0) && p90 == pct(MaxDrawdowns(req, factors), 90.0)
  {
    var maxDd := MaxDrawdowns(req, factors);
    median, p10, p90 := pct(maxDd, 50.0), pct(maxDd, 10.0), pct(maxDd, 90.0);
  }
}
