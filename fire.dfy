/** The FIRE backend: a Monte Carlo of a portfolio that receives a monthly
    contribution until retirement and pays a monthly drawdown afterwards,
    both raised for inflation once every 12 periods, with wealth clamped at
    zero. It reports percentile bands, the share of paths that end with
    money left, and how long the money lasts in retirement.

    The random growth factors are inputs (`factors[i][t]` is path i's factor
    in period t + 1, drawn with the accumulation drift before retirement and
    the retirement drift after it), and numpy's percentile is the parameter
    `pct`. */
module FireBackend {
  import opened Numeric
  import opened Calendar

  /** The request of `/fire`, without the fields that only shape the random
      factors (returns, volatility, expense ratio, seed). */
  datatype FireRequest = FireRequest(
    initialBalance: real,
    monthlyDisposable: real,
    monthlyDrawdown: real,
    yearsToRetire: int,
    yearsInRetirement: int,
    inflation: real,
    nSims: int,
    frequency: int,
    startDate: Option<Date>,
    decimals: int)

  // ---------------------------------------------------------------------
  // The contribution and withdrawal schedule

  /** An amount raised n times by the factor x, one raise per year. */
  function Raised(a: real, x: real, n: nat): real {
    if n == 0 then a else Raised(a, x, n - 1) * x
  }

  /** Raising n times is compounding: a * x^n. */
  lemma {:induction false} RaisedIsPower(a: real, x: real, n: nat)
    ensures Raised(a, x, n) == a * Pow(x, n)
  {
    if n > 0 {
      RaisedIsPower(a, x, n - 1);
      RaiseStep(a, x, Pow(x, n - 1));
    }
  }

  lemma RaiseStep(a: real, x: real, p: real)
    ensures a * p * x == a * (x * p)
  {
  }

  lemma {:induction false} RaisedNonNegative(a: real, x: real, n: nat)
    requires a >= 0.0 && x >= 0.0
    ensures Raised(a, x, n) >= 0.0
  {
    if n > 0 {
      RaisedNonNegative(a, x, n - 1);
    }
  }

  /** `contrib[m]`: the monthly amount raised by inflation after every 12
      periods of accumulation, and nothing once retired. */
  function ContributionAt(monthly: real, inflation: real, tAcc: nat, m: nat): real {
    if m < tAcc then Raised(monthly, 1.0 + inflation, m / 12) else 0.0
  }

  /** `draw[m]`: nothing before retirement, then the monthly drawdown raised
      by inflation after every 12 periods of retirement. */
  function DrawAt(spend: real, inflation: real, tAcc: nat, m: nat): real {
    if m < tAcc then 0.0 else Raised(spend, 1.0 + inflation, (m - tAcc) / 12)
  }

  /** One more period of a phase starts a new year exactly when it
      completes 12 periods of it. */
  lemma NextPeriod(k: nat, next: nat)
    requires next == k + 1
    ensures next % 12 == 0 ==> next / 12 == k / 12 + 1
    ensures next % 12 != 0 ==> next / 12 == k / 12
  {
  }

  /** The two schedule loops: `contrib` over the accumulation months, then
      `draw` over the retirement months, each bumping its running amount
      after every 12th period of its phase. */
  method BuildSchedule(monthly0: real, spend0: real, inflation: real, tAcc: nat, tRet: nat)
    returns (contrib: array<real>, draw: array<real>)
    ensures fresh(contrib) && fresh(draw)
    ensures contrib.Length == tAcc + tRet && draw.Length == tAcc + tRet
    ensures forall m :: 0 <= m < tAcc + tRet ==> contrib[m] == ContributionAt(monthly0, inflation, tAcc, m)
    ensures forall m :: 0 <= m < tAcc + tRet ==> draw[m] == DrawAt(spend0, inflation, tAcc, m)
  {
    var T := tAcc + tRet;
    contrib := new real[T](_ => 0.0);
    draw := new real[T](_ => 0.0);
    var monthly := monthly0;
    for m := 0 to tAcc
      invariant monthly == Raised(monthly0, 1.0 + inflation, m / 12)
      invariant forall k :: 0 <= k < m ==> contrib[k] == ContributionAt(monthly0, inflation, tAcc, k)
      invariant forall k :: m <= k < T ==> contrib[k] == 0.0
      invariant forall k :: 0 <= k < T ==> draw[k] == 0.0
    {
      contrib[m] := monthly;
      assert contrib[m] == ContributionAt(monthly0, inflation, tAcc, m);
      NextPeriod(m, m + 1);
      if (m + 1) % 12 == 0 {
        monthly := monthly * (1.0 + inflation);
      }
    }
    var spend := spend0;
    for m := tAcc to T
      invariant spend == Raised(spend0, 1.0 + inflation, (m - tAcc) / 12)
      invariant tAcc <= m
      invariant forall k :: 0 <= k < T ==> contrib[k] == ContributionAt(monthly0, inflation, tAcc, k)
      invariant forall k :: 0 <= k < m ==> draw[k] == DrawAt(spend0, inflation, tAcc, k)
    {
      draw[m] := spend;
      assert draw[m] == DrawAt(spend0, inflation, tAcc, m);
      NextPeriod(m - tAcc, m + 1 - tAcc);
      if (m + 1 - tAcc) % 12 == 0 {
        spend := spend * (1.0 + inflation);
      }
    }
  }

  /** Within a phase every amount is its phase's first amount, raised once
      per completed 12 periods: a year later it is exactly (1 + inflation)
      times larger. */
  lemma YearlyRaise(monthly: real, spend: real, inflation: real, tAcc: nat, m: nat)
    ensures m + 12 < tAcc ==>
      ContributionAt(monthly, inflation, tAcc, m + 12) == ContributionAt(monthly, inflation, tAcc, m) * (1.0 + inflation)
    ensures tAcc <= m ==>
      DrawAt(spend, inflation, tAcc, m + 12) == DrawAt(spend, inflation, tAcc, m) * (1.0 + inflation)
  {
    assert (m + 12) / 12 == m / 12 + 1;
    if tAcc <= m {
      assert (m + 12 - tAcc) / 12 == (m - tAcc) / 12 + 1;
    }
  }

  /** With inflation of at least -100%, a non-negative first amount keeps
      every amount of its phase non-negative. */
  lemma ScheduleNonNegative(monthly: real, spend: real, inflation: real, tAcc: nat, m: nat)
    requires inflation >= -1.0
    ensures monthly >= 0.0 ==> ContributionAt(monthly, inflation, tAcc, m) >= 0.0
    ensures spend >= 0.0 ==> DrawAt(spend, inflation, tAcc, m) >= 0.0
  {
    if monthly >= 0.0 {
      RaisedNonNegative(monthly, 1.0 + inflation, m / 12);
    }
    if spend >= 0.0 && m >= tAcc {
      RaisedNonNegative(spend, 1.0 + inflation, (m - tAcc) / 12);
    }
  }

  // ---------------------------------------------------------------------
  // Wealth paths

  /** One month: grow, add the net flow, and clamp at zero. */
  function FireStep(w: real, factor: real, c: real, d: real): real {
    RealMax(w * factor + (c - d), 0.0)
  }

  /** Wealth of one path after t months. */
  function FireWealth(initial: real, factors: seq<real>, contrib: seq<real>, draw: seq<real>, t: nat): real
    requires t <= |factors| && t <= |contrib| && t <= |draw|
  {
    if t == 0 then initial
    else FireStep(FireWealth(initial, factors, contrib, draw, t - 1), factors[t - 1], contrib[t - 1], draw[t - 1])
  }

  /** Clamping keeps every balance after the start non-negative. */
  lemma FireWealthNonNegative(initial: real, factors: seq<real>, contrib: seq<real>, draw: seq<real>, t: nat)
    requires t <= |factors| && t <= |contrib| && t <= |draw|
    requires t >= 1 || initial >= 0.0
    ensures FireWealth(initial, factors, contrib, draw, t) >= 0.0
  {
  }

  /** Once retired, a depleted path stays depleted: no contribution arrives
      and every drawdown only pushes it back to the clamp. */
  lemma {:induction false} DepletionIsFinal(initial: real, factors: seq<real>, contrib: seq<real>, draw: seq<real>,
                                            tAcc: nat, s: nat, t: nat)
    requires t <= |factors| && t <= |contrib| && t <= |draw|
    requires tAcc <= s <= t
    requires forall k :: tAcc <= k < |contrib| ==> contrib[k] == 0.0
    requires forall k :: tAcc <= k < |draw| ==> draw[k] >= 0.0
    requires FireWealth(initial, factors, contrib, draw, s) == 0.0
    ensures FireWealth(initial, factors, contrib, draw, t) == 0.0
  {
    if t > s {
      DepletionIsFinal(initial, factors, contrib, draw, tAcc, s, t - 1);
      assert FireWealth(initial, factors, contrib, draw, t - 1) * factors[t - 1] == 0.0;
    }
  }

  /** The whole path `wealth[i, :]`, months 0..n. */
  function FirePath(initial: real, factors: seq<real>, contrib: seq<real>, draw: seq<real>): (r: seq<real>)
    requires |factors| == |contrib| == |draw|
    ensures |r| == |contrib| + 1
    ensures forall t :: 0 <= t <= |contrib| ==> r[t] == FireWealth(initial, factors, contrib, draw, t)
  {
    seq(|contrib| + 1, t requires 0 <= t <= |contrib| => FireWealth(initial, factors, contrib, draw, t))
  }

  /** The wealth matrix, one row per path and one column per month, filled
      column by column. */
  method SimulateFire(initial: real, factors: seq<seq<real>>, contrib: seq<real>, draw: seq<real>)
    returns (w: array2<real>)
    requires |contrib| == |draw|
    requires forall i :: 0 <= i < |factors| ==> |factors[i]| == |contrib|
    ensures fresh(w) && w.Length0 == |factors| && w.Length1 == |contrib| + 1
    ensures forall i, t :: 0 <= i < w.Length0 && 0 <= t < w.Length1 ==>
      w[i, t] == FireWealth(initial, factors[i], contrib, draw, t)
  {
    var n := |factors|;
    w := new real[n, |contrib| + 1];
    for i := 0 to n
      invariant forall i' :: 0 <= i' < i ==> w[i', 0] == initial
    {
      w[i, 0] := initial;
    }
    for t := 1 to |contrib| + 1
      invariant forall i', t' :: 0 <= i' < n && 0 <= t' < t ==> w[i', t'] == FireWealth(initial, factors[i'], contrib, draw, t')
    {
      StepColumn(w, initial, factors, contrib, draw, t);
    }
  }

  /** `wealth[:, t] = max(wealth[:, t-1] * factors[:, t-1] + contrib[t-1] - draw[t-1], 0)`,
      path by path; no other column changes. */
  method StepColumn(w: array2<real>, initial: real, factors: seq<seq<real>>, contrib: seq<real>, draw: seq<real>, t: nat)
    modifies w
    requires |contrib| == |draw|
    requires forall i :: 0 <= i < |factors| ==> |factors[i]| == |contrib|
    requires w.Length0 == |factors| && w.Length1 == |contrib| + 1 && 1 <= t <= |contrib|
    requires forall i :: 0 <= i < w.Length0 ==> w[i, t - 1] == FireWealth(initial, factors[i], contrib, draw, t - 1)
    ensures forall i :: 0 <= i < w.Length0 ==> w[i, t] == FireWealth(initial, factors[i], contrib, draw, t)
    ensures forall i, t' :: 0 <= i < w.Length0 && 0 <= t' < w.Length1 && t' != t ==> w[i, t'] == old(w[i, t'])
  {
    for i := 0 to w.Length0
      invariant forall i' :: 0 <= i' < i ==> w[i', t] == FireWealth(initial, factors[i'], contrib, draw, t)
      invariant forall i', t' :: 0 <= i' < w.Length0 && 0 <= t' < w.Length1 && t' != t ==> w[i', t'] == old(w[i', t'])
    {
      w[i, t] := FireStep(w[i, t - 1], factors[i][t - 1], contrib[t - 1], draw[t - 1]);
    }
  }

  // ---------------------------------------------------------------------
  // Time to depletion

  /** The first month in from..last whose balance is at or below zero. */
  function FirstDepleted(path: seq<real>, from: nat, last: nat): (r: Option<nat>)
    requires last < |path|
    ensures r.Some? ==> from <= r.value <= last && path[r.value] <= 0.0
    ensures r.Some? ==> forall j :: from <= j < r.value ==> path[j] > 0.0
    ensures r.None? <==> forall j :: from <= j <= last ==> path[j] > 0.0
    decreases last + 1 - from
  {
    if from > last then None
    else if path[from] <= 0.0 then Some(from)
    else FirstDepleted(path, from + 1, last)
  }

  /** One `time_to_zero` entry: months from retirement to the first
      depleted month after it, or the whole retirement if none is. */
  function TimeToZero(path: seq<real>, tAcc: nat, tRet: nat): (r: int)
    requires |path| == tAcc + tRet + 1
    ensures 0 <= r <= tRet
  {
    match FirstDepleted(path, tAcc + 1, tAcc + tRet)
    case None => tRet
    case Some(z) => IntMax(0, z - tAcc)
  }

  /** A path that lasts r < tRet months is depleted in retirement month r
      and solvent in every retirement month before it; a path solvent
      through all of retirement lasts tRet months. */
  lemma TimeToZeroMeaning(path: seq<real>, tAcc: nat, tRet: nat)
    requires |path| == tAcc + tRet + 1
    ensures var r := TimeToZero(path, tAcc, tRet);
      r < tRet ==> 1 <= r && path[tAcc + r] <= 0.0 && forall j :: tAcc < j < tAcc + r ==> path[j] > 0.0
    ensures (forall j :: tAcc < j <= tAcc + tRet ==> path[j] > 0.0) ==> TimeToZero(path, tAcc, tRet) == tRet
  {
    var z := FirstDepleted(path, tAcc + 1, tAcc + tRet);
    if z.Some? {
      assert IntMax(0, z.value - tAcc) == z.value - tAcc;
    }
  }

  /** A path with money left at the end never ran out in retirement, so it
      lasts the whole retirement; hence every path counted in
      `prob_nonzero_end` reports the full retirement length. */
  lemma SurvivorLastsRetirement(initial: real, factors: seq<real>, contrib: seq<real>, draw: seq<real>,
                                tAcc: nat, tRet: nat)
    requires |factors| == |contrib| == |draw| == tAcc + tRet
    requires forall k :: tAcc <= k < |contrib| ==> contrib[k] == 0.0
    requires forall k :: tAcc <= k < |draw| ==> draw[k] >= 0.0
    requires FireWealth(initial, factors, contrib, draw, tAcc + tRet) > 0.0
    ensures TimeToZero(FirePath(initial, factors, contrib, draw), tAcc, tRet) == tRet
  {
    var path := FirePath(initial, factors, contrib, draw);
    forall j | tAcc < j <= tAcc + tRet
      ensures path[j] > 0.0
    {
      FireWealthNonNegative(initial, factors, contrib, draw, j);
      if path[j] == 0.0 {
        DepletionIsFinal(initial, factors, contrib, draw, tAcc, j, tAcc + tRet);
      }
    }
    TimeToZeroMeaning(path, tAcc, tRet);
  }

  /** The `time_to_zero` loop: for each path, a search from the first
      retirement month that stops at the first depleted month. */
  method TimesToZero(w: array2<real>, tAcc: nat, tRet: nat) returns (ttz: seq<int>)
    requires w.Length1 == tAcc + tRet + 1
    ensures |ttz| == w.Length0
    ensures forall i :: 0 <= i < w.Length0 ==> ttz[i] == TimeToZero(Row(w, i), tAcc, tRet)
  {
    ttz := [];
    var T := tAcc + tRet;
    for i := 0 to w.Length0
      invariant |ttz| == i
      invariant forall i' :: 0 <= i' < i ==> ttz[i'] == TimeToZero(Row(w, i'), tAcc, tRet)
    {
      ghost var path := Row(w, i);
      var zeroIdx: Option<int> := None;
      for t := tAcc + 1 to T + 1
        invariant forall j :: tAcc + 1 <= j < t ==> path[j] > 0.0
      {
        if w[i, t] <= 0.0 {
          zeroIdx := Some(t);
          break;
        }
      }
      if zeroIdx.None? {
        assert FirstDepleted(path, tAcc + 1, T).None?;
        ttz := ttz + [tRet];
      } else {
        assert FirstDepleted(path, tAcc + 1, T) == Some(zeroIdx.value as nat);
        ttz := ttz + [IntMax(0, zeroIdx.value - tAcc)];
      }
    }
  }

  /** `int(np.median(time_to_zero))`, for a percentile that stays within
      the sample, lies within the retirement. */
  lemma MedianLongevityBounded(pct: (seq<real>, real) -> real, ttz: seq<int>, tRet: nat)
    requires WithinSample(pct) && |ttz| > 0
    requires forall i :: 0 <= i < |ttz| ==> 0 <= ttz[i] <= tRet
    ensures 0 <= Trunc(pct(AsReals(ttz), 50.0)) <= tRet
  {
    PercentileWithin(pct, AsReals(ttz), 50.0, 0.0, tRet as real);
  }

  /** The integer list as floats, as numpy reads it. */
  function AsReals(xs: seq<int>): (r: seq<real>)
    ensures |r| == |xs| && forall i :: 0 <= i < |xs| ==> r[i] == xs[i] as real
  {
    seq(|xs|, i requires 0 <= i < |xs| => xs[i] as real)
  }

  // ---------------------------------------------------------------------
  // The `/fire` handler

  /** The horizons modelled: both phases non-negative, a positive frequency
      (`1.0 / frequency` divides by it) and at least one path (percentiles
      need a sample). numpy refuses only a negative total horizon; a
      negative accumulation phase with a non-negative total still runs, by
      negative-index wrap-around, and is not modelled. */
  predicate ValidHorizon(req: FireRequest) {
    req.yearsToRetire >= 0 && req.yearsInRetirement >= 0 && req.frequency >= 1 && req.nSims >= 1
  }

  /** `T_acc` and `T_ret`. */
  function AccumulationPeriods(req: FireRequest): nat
    requires ValidHorizon(req)
  {
    req.yearsToRetire * req.frequency
  }

  function RetirementPeriods(req: FireRequest): nat
    requires ValidHorizon(req)
  {
    req.yearsInRetirement * req.frequency
  }

  /** The `contrib` and `draw` arrays of a request, as sequences. */
  function Contributions(req: FireRequest): (r: seq<real>)
    requires ValidHorizon(req)
    ensures |r| == AccumulationPeriods(req) + RetirementPeriods(req)
  {
    seq(AccumulationPeriods(req) + RetirementPeriods(req),
        m requires 0 <= m => ContributionAt(req.monthlyDisposable, req.inflation, AccumulationPeriods(req), m))
  }

  function Draws(req: FireRequest): (r: seq<real>)
    requires ValidHorizon(req)
    ensures |r| == AccumulationPeriods(req) + RetirementPeriods(req)
  {
    seq(AccumulationPeriods(req) + RetirementPeriods(req),
        m requires 0 <= m => DrawAt(req.monthlyDrawdown, req.inflation, AccumulationPeriods(req), m))
  }

  /** Factors of the right shape: one row of T positive factors per path. */
  predicate FactorsFit(req: FireRequest, factors: seq<seq<real>>)
    requires ValidHorizon(req)
  {
    |factors| == req.nSims
    && forall i :: 0 <= i < |factors| ==>
         |factors[i]| == AccumulationPeriods(req) + RetirementPeriods(req) && AllPositive(factors[i])
  }

  /** Path i of the simulation. */
  function PathOf(req: FireRequest, factors: seq<seq<real>>, i: nat): (r: seq<real>)
    requires ValidHorizon(req) && FactorsFit(req, factors) && i < |factors|
    ensures |r| == AccumulationPeriods(req) + RetirementPeriods(req) + 1
  {
    FirePath(req.initialBalance, factors[i], Contributions(req), Draws(req))
  }

  /** Every path's wealth after t months. */
  function ColumnOf(req: FireRequest, factors: seq<seq<real>>, t: nat): (r: seq<real>)
    requires ValidHorizon(req) && FactorsFit(req, factors)
    requires t <= AccumulationPeriods(req) + RetirementPeriods(req)
    ensures |r| == |factors| && forall i :: 0 <= i < |factors| ==> r[i] == PathOf(req, factors, i)[t]
  {
    seq(|factors|, i requires 0 <= i < |factors| => PathOf(req, factors, i)[t])
  }

  /** One percentile band over all months. */
  function FireBand(req: FireRequest, factors: seq<seq<real>>, q: real, pct: (seq<real>, real) -> real): (r: seq<real>)
    requires ValidHorizon(req) && FactorsFit(req, factors)
    ensures |r| == AccumulationPeriods(req) + RetirementPeriods(req) + 1
    ensures forall t :: 0 <= t < |r| ==> r[t] == pct(ColumnOf(req, factors, t), q)
  {
    var T := AccumulationPeriods(req) + RetirementPeriods(req);
    seq(T + 1, t requires 0 <= t <= T => pct(ColumnOf(req, factors, t), q))
  }

  /** `time_to_zero`: one entry per path. */
  function Longevities(req: FireRequest, factors: seq<seq<real>>): (r: seq<int>)
    requires ValidHorizon(req) && FactorsFit(req, factors)
    ensures |r| == |factors|
    ensures forall i :: 0 <= i < |r| ==> r[i] == TimeToZero(PathOf(req, factors, i), AccumulationPeriods(req), RetirementPeriods(req))
    ensures forall i :: 0 <= i < |r| ==> 0 <= r[i] <= RetirementPeriods(req)
  {
    seq(|factors|, i requires 0 <= i < |factors| =>
      TimeToZero(PathOf(req, factors, i), AccumulationPeriods(req), RetirementPeriods(req)))
  }

  datatype FireResponse = FireResponse(
    labels: seq<Date>,
    p10: seq<real>,
    p25: seq<real>,
    p50: seq<real>,
    p75: seq<real>,
    p90: seq<real>,
    medianTerminal: real,
    probNonzeroEnd: real,
    medianLastingMonths: int,
    retirementStartIndex: int,
    digits: nat)

  /** Positive terminal wealth: what `terminal > 0` selects. */
  predicate Positive(x: real) { x > 0.0 }

  /** What a `/fire` response reports, in terms of the simulated paths. */
  predicate FireOk(req: FireRequest, factors: seq<seq<real>>, start: Date, pct: (seq<real>, real) -> real, r: FireResponse)
    requires ValidDate(start) && ValidHorizon(req) && FactorsFit(req, factors)
  {
    var T := AccumulationPeriods(req) + RetirementPeriods(req);
    var terminal := ColumnOf(req, factors, T);
    && |r.labels| == T + 1
    && (forall i :: 0 <= i <= T ==> AddMonths(start, i) == Some(r.labels[i]))
    && r.p10 == FireBand(req, factors, 10.0, pct) && r.p25 == FireBand(req, factors, 25.0, pct)
    && r.p50 == FireBand(req, factors, 50.0, pct) && r.p75 == FireBand(req, factors, 75.0, pct)
    && r.p90 == FireBand(req, factors, 90.0, pct)
    && r.medianTerminal == pct(terminal, 50.0)
    && r.probNonzeroEnd == Share(terminal, Positive)
    && r.medianLastingMonths == Trunc(pct(AsReals(Longevities(req, factors)), 50.0))
    && r.retirementStartIndex == AccumulationPeriods(req)
    && r.digits == IntMax(0, req.decimals)
  }

  /** The `/fire` handler with its random factors and today's date given.
      It fails only where a label's year leaves the calendar. */
  method Fire(req: FireRequest, factors: seq<seq<real>>, today: Date, pct: (seq<real>, real) -> real)
    returns (res: Option<FireResponse>)
    requires ValidDate(today) && (req.startDate.Some? ==> ValidDate(req.startDate.value))
    requires ValidHorizon(req) && FactorsFit(req, factors)
    ensures var start := if req.startDate.Some? then req.startDate.value else today;
      res.None? <==> MonthLabels(start, AccumulationPeriods(req) + RetirementPeriods(req) + 1).None?
    ensures res.Some? ==>
      FireOk(req, factors, if req.startDate.Some? then req.startDate.value else today, pct, res.value)
  {
    var tAcc := req.yearsToRetire * req.frequency;
    var tRet := req.yearsInRetirement * req.frequency;
    var contrib, draw := BuildSchedule(req.monthlyDisposable, req.monthlyDrawdown, req.inflation, tAcc, tRet);
    assert contrib[..] == Contributions(req) && draw[..] == Draws(req);
    var w := SimulateFire(req.initialBalance, factors, contrib[..], draw[..]);
    var start := if req.startDate.Some? then req.startDate.value else today;
    res := Report(req, factors, w, start, pct);
  }

  /** The handler after the simulation: bands, terminal statistics, the
      depletion search and the labels. */
  method Report(req: FireRequest, factors: seq<seq<real>>, w: array2<real>, start: Date, pct: (seq<real>, real) -> real)
    returns (res: Option<FireResponse>)
    requires ValidDate(start)
    requires ValidHorizon(req) && FactorsFit(req, factors)
    requires w.Length0 == |factors| && w.Length1 == AccumulationPeriods(req) + RetirementPeriods(req) + 1
    requires forall i, t :: 0 <= i < w.Length0 && 0 <= t < w.Length1 ==>
      w[i, t] == FireWealth(req.initialBalance, factors[i], Contributions(req), Draws(req), t)
    ensures res.None? <==> MonthLabels(start, AccumulationPeriods(req) + RetirementPeriods(req) + 1).None?
    ensures res.Some? ==> FireOk(req, factors, start, pct, res.value)
  {
    var tAcc := req.yearsToRetire * req.frequency;
    var T := tAcc + req.yearsInRetirement * req.frequency;
    RowsArePaths(req, factors, w);
    var p10, p25, p50, p75, p90 := FireBands(req, factors, w, pct);
    var medianTerminal, probNonzeroEnd := TerminalStats(req, factors, w, pct);
    var medianLongevity := MedianLongevity(req, factors, w, pct);
    var labels := MonthLabels(start, T + 1);
    if labels.None? {
      return None;
    }
    var digits := IntMax(0, req.decimals);
    res := Some(FireResponse(labels.value, p10, p25, p50, p75, p90, medianTerminal, probNonzeroEnd,
                             medianLongevity, tAcc, digits));
  }

  /** The five percentile bands of the wealth matrix. */
  method FireBands(req: FireRequest, factors: seq<seq<real>>, w: array2<real>, pct: (seq<real>, real) -> real)
    returns (p10: seq<real>, p25: seq<real>, p50: seq<real>, p75: seq<real>, p90: seq<real>)
    requires ValidHorizon(req) && FactorsFit(req, factors)
    requires w.Length0 == |factors| && w.Length1 == AccumulationPeriods(req) + RetirementPeriods(req) + 1
    requires forall i, t :: 0 <= i < w.Length0 && 0 <= t < w.Length1 ==>
      w[i, t] == FireWealth(req.initialBalance, factors[i], Contributions(req), Draws(req), t)
    ensures p10 == FireBand(req, factors, 10.0, pct) && p25 == FireBand(req, factors, 25.0, pct)
    ensures p50 == FireBand(req, factors, 50.0, pct) && p75 == FireBand(req, factors, 75.0, pct)
    ensures p90 == FireBand(req, factors, 90.0, pct)
  {
    RowsArePaths(req, factors, w);
    p10, p25, p50, p75, p90 := ColumnPercentiles(w, pct);
    ColumnsAreBands(req, factors, w, pct);
  }

  /** `median_terminal` and `prob_nonzero_end`: the median of the final
      column and the share of its positive entries. */
  method TerminalStats(req: FireRequest, factors: seq<seq<real>>, w: array2<real>, pct: (seq<real>, real) -> real)
    returns (medianTerminal: real, probNonzeroEnd: real)
    requires ValidHorizon(req) && FactorsFit(req, factors)
    requires w.Length0 == |factors| && w.Length1 == AccumulationPeriods(req) + RetirementPeriods(req) + 1
    requires forall i, t :: 0 <= i < w.Length0 && 0 <= t < w.Length1 ==>
      w[i, t] == FireWealth(req.initialBalance, factors[i], Contributions(req), Draws(req), t)
    ensures medianTerminal == pct(ColumnOf(req, factors, AccumulationPeriods(req) + RetirementPeriods(req)), 50.0)
    ensures probNonzeroEnd == Share(ColumnOf(req, factors, AccumulationPeriods(req) + RetirementPeriods(req)), Positive)
  {
    RowsArePaths(req, factors, w);
    var terminal := Column(w, w.Length1 - 1);
    probNonzeroEnd := Share(terminal, Positive);
    medianTerminal := pct(terminal, 50.0);
  }

  /** `median_longevity_months`: the median of `time_to_zero`, truncated. */
  method MedianLongevity(req: FireRequest, factors: seq<seq<real>>, w: array2<real>, pct: (seq<real>, real) -> real)
    returns (months: int)
    requires ValidHorizon(req) && FactorsFit(req, factors)
    requires w.Length0 == |factors| && w.Length1 == AccumulationPeriods(req) + RetirementPeriods(req) + 1
    requires forall i, t :: 0 <= i < w.Length0 && 0 <= t < w.Length1 ==>
      w[i, t] == FireWealth(req.initialBalance, factors[i], Contributions(req), Draws(req), t)
    ensures months == Trunc(pct(AsReals(Longevities(req, factors)), 50.0))
  {
    RowsArePaths(req, factors, w);
    var ttz := TimesToZero(w, AccumulationPeriods(req), RetirementPeriods(req));
    assert ttz == Longevities(req, factors);
    months := Trunc(pct(AsReals(ttz), 50.0));
  }

  /** Row i of the simulated matrix is path i. */
  lemma RowsArePaths(req: FireRequest, factors: seq<seq<real>>, w: array2<real>)
    requires ValidHorizon(req) && FactorsFit(req, factors)
    requires w.Length0 == |factors| && w.Length1 == AccumulationPeriods(req) + RetirementPeriods(req) + 1
    requires forall i, t :: 0 <= i < w.Length0 && 0 <= t < w.Length1 ==>
      w[i, t] == FireWealth(req.initialBalance, factors[i], Contributions(req), Draws(req), t)
    ensures forall i :: 0 <= i < w.Length0 ==> Row(w, i) == PathOf(req, factors, i)
    ensures forall t :: 0 <= t < w.Length1 ==> Column(w, t) == ColumnOf(req, factors, t)
  {
    forall i | 0 <= i < w.Length0
      ensures Row(w, i) == PathOf(req, factors, i)
    {
    }
    forall t | 0 <= t < w.Length1
      ensures Column(w, t) == ColumnOf(req, factors, t)
    {
    }
  }

  /** The bands read off the matrix are the bands of the paths. */
  lemma ColumnsAreBands(req: FireRequest, factors: seq<seq<real>>, w: array2<real>, pct: (seq<real>, real) -> real)
    requires ValidHorizon(req) && FactorsFit(req, factors)
    requires w.Length0 == |factors| && w.Length1 == AccumulationPeriods(req) + RetirementPeriods(req) + 1
    requires forall t :: 0 <= t < w.Length1 ==> Column(w, t) == ColumnOf(req, factors, t)
    ensures forall q :: ColumnBand(w, q, pct) == FireBand(req, factors, q, pct)
  {
  }

  /** The reported median longevity lies within the retirement, for a
      percentile that stays within the sample. */
  lemma LastingWithinRetirement(req: FireRequest, factors: seq<seq<real>>, start: Date, pct: (seq<real>, real) -> real, r: FireResponse)
    requires ValidDate(start) && ValidHorizon(req) && FactorsFit(req, factors)
    requires FireOk(req, factors, start, pct, r) && WithinSample(pct)
    ensures 0 <= r.medianLastingMonths <= RetirementPeriods(req)
  {
    MedianLongevityBounded(pct, Longevities(req, factors), RetirementPeriods(req));
  }

  /** The reported survival share is a fraction, and it is 1 exactly when
      every path ends with money left. */
  lemma SurvivalIsFraction(req: FireRequest, factors: seq<seq<real>>, start: Date, pct: (seq<real>, real) -> real, r: FireResponse)
    requires ValidDate(start) && ValidHorizon(req) && FactorsFit(req, factors)
    requires FireOk(req, factors, start, pct, r)
    ensures 0.0 <= r.probNonzeroEnd <= 1.0
    ensures r.probNonzeroEnd == 1.0 <==> forall i :: 0 <= i < |factors| ==> Survives(req, factors, i)
    ensures r.probNonzeroEnd == 0.0 <==> forall i :: 0 <= i < |factors| ==> !Survives(req, factors, i)
  {
    var terminal := ColumnOf(req, factors, AccumulationPeriods(req) + RetirementPeriods(req));
    assert forall i :: 0 <= i < |factors| ==> (Survives(req, factors, i) <==> Positive(terminal[i]));
  }

  /** Path i ends the horizon with money left. */
  predicate Survives(req: FireRequest, factors: seq<seq<real>>, i: nat)
    requires ValidHorizon(req) && FactorsFit(req, factors) && i < |factors|
  {
    ColumnOf(req, factors, AccumulationPeriods(req) + RetirementPeriods(req))[i] > 0.0
  }

  /** From a non-negative start the reported median terminal wealth and the
      whole median band are non-negative, for a percentile that stays within
      the sample. */
  lemma MedianWealthNonNegative(req: FireRequest, factors: seq<seq<real>>, start: Date, pct: (seq<real>, real) -> real, r: FireResponse)
    requires ValidDate(start) && ValidHorizon(req) && FactorsFit(req, factors)
    requires FireOk(req, factors, start, pct, r) && WithinSample(pct)
    requires req.initialBalance >= 0.0
    ensures r.medianTerminal >= 0.0 && AllNonNegative(r.p50)
  {
    MedianBandNonNegative(req, factors, pct);
    var T := AccumulationPeriods(req) + RetirementPeriods(req);
    assert r.medianTerminal == FireBand(req, factors, 50.0, pct)[T];
  }

  /** From a non-negative start every column is non-negative, and so is its
      median. */
  lemma MedianBandNonNegative(req: FireRequest, factors: seq<seq<real>>, pct: (seq<real>, real) -> real)
    requires ValidHorizon(req) && FactorsFit(req, factors) && WithinSample(pct)
    requires req.initialBalance >= 0.0
    ensures AllNonNegative(FireBand(req, factors, 50.0, pct))
  {
    var T := AccumulationPeriods(req) + RetirementPeriods(req);
    forall t | 0 <= t <= T
      ensures pct(ColumnOf(req, factors, t), 50.0) >= 0.0
    {
      ColumnNonNegative(req, factors, t);
      var column := ColumnOf(req, factors, t);
      PercentileWithin(pct, column, 50.0, 0.0, Max(column));
    }
  }

  lemma ColumnNonNegative(req: FireRequest, factors: seq<seq<real>>, t: nat)
    requires ValidHorizon(req) && FactorsFit(req, factors) && req.initialBalance >= 0.0
    requires t <= AccumulationPeriods(req) + RetirementPeriods(req)
    ensures forall i :: 0 <= i < |factors| ==> ColumnOf(req, factors, t)[i] >= 0.0
  {
    forall i | 0 <= i < |factors|
      ensures ColumnOf(req, factors, t)[i] >= 0.0
    {
      FireWealthNonNegative(req.initialBalance, factors[i], Contributions(req), Draws(req), t);
    }
  }

  /** Every path that ends with money left lasted the whole retirement, so
      `prob_nonzero_end` never exceeds the share of paths whose
      `time_to_zero` is the full retirement. */
  lemma SurvivorsLastRetirement(req: FireRequest, factors: seq<seq<real>>, i: nat)
    requires ValidHorizon(req) && FactorsFit(req, factors) && i < |factors|
    requires req.monthlyDrawdown >= 0.0 && req.inflation >= -1.0
    requires Survives(req, factors, i)
    ensures Longevities(req, factors)[i] == RetirementPeriods(req)
  {
    var tAcc, tRet := AccumulationPeriods(req), RetirementPeriods(req);
    var contrib, draw := Contributions(req), Draws(req);
    forall k | tAcc <= k < |draw|
      ensures draw[k] >= 0.0
    {
      ScheduleNonNegative(req.monthlyDisposable, req.monthlyDrawdown, req.inflation, tAcc, k);
    }
    SurvivorLastsRetirement(req.initialBalance, factors[i], contrib, draw, tAcc, tRet);
  }
}
