/** Shared numeric vocabulary: optional results, integer powers, sums,
    extremes, running maxima and counting over sequences of reals. Money and
    rates are exact reals; floating-point rounding is not modelled. */
module Numeric {

  datatype Option<T> = None | Some(value: T)

  function RealMax(a: real, b: real): real { if a >= b then a else b }

  function IntMax(a: int, b: int): int { if a >= b then a else b }

  function IntMin(a: int, b: int): int { if a <= b then a else b }

  function Abs(x: real): real { if x < 0.0 then -x else x }

  /** x raised to a natural power (Python's `x ** n` for an int n >= 0). */
  function Pow(x: real, n: nat): real {
    if n == 0 then 1.0 else x * Pow(x, n - 1)
  }

  lemma {:induction false} PowPositive(x: real, n: nat)
    requires x > 0.0
    ensures Pow(x, n) > 0.0
  {
    if n > 0 {
      PowPositive(x, n - 1);
    }
  }

  lemma {:induction false} PowAtLeastOne(x: real, n: nat)
    requires x >= 1.0
    ensures Pow(x, n) >= 1.0
  {
    if n > 0 {
      PowAtLeastOne(x, n - 1);
    }
  }

  lemma {:induction false} PowNonZero(x: real, n: nat)
    requires x != 0.0
    ensures Pow(x, n) != 0.0
  {
    if n > 0 {
      PowNonZero(x, n - 1);
    }
  }

  /** Sum of a sequence, adding from the left as numpy's sum does. */
  function Sum(s: seq<real>): real {
    if |s| == 0 then 0.0 else Sum(s[..|s| - 1]) + s[|s| - 1]
  }

  lemma {:induction false} SumAppend(a: seq<real>, b: seq<real>)
    ensures Sum(a + b) == Sum(a) + Sum(b)
  {
    if |b| == 0 {
      assert a + b == a;
    } else {
      assert (a + b)[..|a + b| - 1] == a + b[..|b| - 1];
      SumAppend(a, b[..|b| - 1]);
    }
  }

  /** n copies of x. */
  function Repeat(x: real, n: nat): (r: seq<real>)
    ensures |r| == n && forall k :: 0 <= k < n ==> r[k] == x
  {
    if n == 0 then [] else Repeat(x, n - 1) + [x]
  }

  /** n copies of x sum to n * x. */
  lemma {:induction false} ConstantSum(x: real, n: nat)
    ensures Sum(Repeat(x, n)) == n as real * x
  {
    if n > 0 {
      ConstantSum(x, n - 1);
      assert Repeat(x, n)[..n - 1] == Repeat(x, n - 1);
    }
  }

  /** numpy's `mean`: the sum spread evenly over the entries. */
  function Mean(s: seq<real>): (m: real)
    requires |s| > 0
    ensures m * |s| as real == Sum(s)
  {
    Sum(s) / |s| as real
  }

  /** The smallest element (numpy's `min`). */
  function Min(s: seq<real>): (m: real)
    requires |s| > 0
    ensures forall k :: 0 <= k < |s| ==> m <= s[k]
    ensures exists k :: 0 <= k < |s| && s[k] == m
  {
    if |s| == 1 then s[0]
    else
      var rest := Min(s[1..]);
      assert forall k :: 1 <= k < |s| ==> s[k] == s[1..][k - 1];
      if s[0] <= rest then s[0] else rest
  }

  /** The largest element (numpy's `max`). */
  function Max(s: seq<real>): (m: real)
    requires |s| > 0
    ensures forall k :: 0 <= k < |s| ==> s[k] <= m
    ensures exists k :: 0 <= k < |s| && s[k] == m
  {
    if |s| == 1 then s[0]
    else
      var rest := Max(s[1..]);
      assert forall k :: 1 <= k < |s| ==> s[k] == s[1..][k - 1];
      if s[0] >= rest then s[0] else rest
  }

  /** numpy's `argmin`: the first index of the smallest element. */
  function ArgMin(s: seq<real>): (k: nat)
    requires |s| > 0
    ensures k < |s|
    ensures forall j :: 0 <= j < |s| ==> s[k] <= s[j]
    ensures forall j :: 0 <= j < k ==> s[k] < s[j]
  {
    if |s| == 1 then 0
    else
      var k := ArgMin(s[..|s| - 1]);
      if s[|s| - 1] < s[k] then |s| - 1 else k
  }

  /** numpy's `maximum.accumulate`: entry t is the largest of s[0..t]. */
  function RunningMax(s: seq<real>): (r: seq<real>)
    ensures |r| == |s|
  {
    seq(|s|, t requires 0 <= t < |s| => Max(s[..t + 1]))
  }

  /** The running maximum bounds every earlier entry, is one of them, and
      never decreases. */
  lemma RunningMaxBounds(s: seq<real>)
    ensures forall j, t :: 0 <= j <= t < |s| ==> s[j] <= RunningMax(s)[t]
    ensures forall t :: 0 <= t < |s| ==> RunningMax(s)[t] in s[..t + 1]
    ensures forall t :: 0 < t < |s| ==> RunningMax(s)[t - 1] <= RunningMax(s)[t]
  {
    var r := RunningMax(s);
    forall j, t | 0 <= j <= t < |s|
      ensures s[j] <= r[t]
    {
      assert s[j] == s[..t + 1][j];
    }
    forall t | 0 < t < |s|
      ensures r[t - 1] <= r[t]
    {
      var k :| 0 <= k < t && s[..t][k] == r[t - 1];
      assert s[..t + 1][k] == s[k];
    }
  }

  /** A series that never falls from one entry to the next never falls
      over any span. */
  lemma {:induction false} NeverFalls(p: seq<real>, j: nat, t: nat)
    requires forall k :: 0 <= k < |p| - 1 ==> p[k] <= p[k + 1]
    requires j <= t < |p|
    ensures p[j] <= p[t]
  {
    if t > j {
      NeverFalls(p, j, t - 1);
    }
  }

  /** The running maximum of a series that never falls is the series. */
  lemma RunningMaxOfRising(s: seq<real>)
    requires forall k :: 0 <= k < |s| - 1 ==> s[k] <= s[k + 1]
    ensures forall t :: 0 <= t < |s| ==> RunningMax(s)[t] == s[t]
  {
    RunningMaxBounds(s);
    forall t | 0 <= t < |s|
      ensures RunningMax(s)[t] == s[t]
    {
      var j :| 0 <= j <= t && s[..t + 1][j] == RunningMax(s)[t];
      NeverFalls(s, j, t);
    }
  }

  /** Number of entries of s that satisfy p. */
  function Count(s: seq<real>, p: real -> bool): (n: nat)
    ensures n <= |s|
  {
    if |s| == 0 then 0
    else Count(s[..|s| - 1], p) + (if p(s[|s| - 1]) then 1 else 0)
  }

  lemma {:induction false} CountAll(s: seq<real>, p: real -> bool)
    ensures Count(s, p) == |s| <==> forall k :: 0 <= k < |s| ==> p(s[k])
  {
    if |s| > 0 {
      CountAll(s[..|s| - 1], p);
      assert forall k :: 0 <= k < |s| - 1 ==> s[..|s| - 1][k] == s[k];
    }
  }

  lemma {:induction false} CountNone(s: seq<real>, p: real -> bool)
    ensures Count(s, p) == 0 <==> forall k :: 0 <= k < |s| ==> !p(s[k])
  {
    if |s| > 0 {
      CountNone(s[..|s| - 1], p);
      assert forall k :: 0 <= k < |s| - 1 ==> s[..|s| - 1][k] == s[k];
    }
  }

  /** numpy's mean of a boolean mask: the share of entries satisfying p. */
  function Share(s: seq<real>, p: real -> bool): (r: real)
    requires |s| > 0
    ensures 0.0 <= r <= 1.0
    ensures r == 1.0 <==> forall k :: 0 <= k < |s| ==> p(s[k])
    ensures r == 0.0 <==> forall k :: 0 <= k < |s| ==> !p(s[k])
  {
    CountAll(s, p);
    CountNone(s, p);
    Fraction(Count(s, p) as real, |s| as real);
    Count(s, p) as real / |s| as real
  }

  lemma Fraction(c: real, n: real)
    requires 0.0 <= c <= n && n > 0.0
    ensures 0.0 <= c / n <= 1.0
    ensures c / n == 1.0 <==> c == n
    ensures c / n == 0.0 <==> c == 0.0
  {
    assert c / n * n == c;
  }

  /** Python's `int(x)` on a float: truncation toward zero. */
  function Trunc(x: real): (n: int)
    ensures x >= 0.0 ==> 0 <= n && n as real <= x < n as real + 1.0
    ensures x < 0.0 ==> n <= 0 && n as real - 1.0 < x <= n as real
  {
    if x >= 0.0 then x.Floor else -((-x).Floor)
  }

  predicate AllPositive(s: seq<real>) {
    forall k :: 0 <= k < |s| ==> s[k] > 0.0
  }

  predicate AllNonNegative(s: seq<real>) {
    forall k :: 0 <= k < |s| ==> s[k] >= 0.0
  }

  /** What numpy's percentile is taken to do: stay within the sample. */
  ghost predicate WithinSample(pct: (seq<real>, real) -> real) {
    forall xs: seq<real>, q: real {:trigger pct(xs, q)} :: |xs| > 0 ==> Min(xs) <= pct(xs, q) <= Max(xs)
  }

  /** `w[:, t]`: column t of a matrix. */
  function Column(w: array2<real>, t: nat): (r: seq<real>)
    requires t < w.Length1
    reads w
    ensures |r| == w.Length0 && forall i :: 0 <= i < w.Length0 ==> r[i] == w[i, t]
  {
    seq(w.Length0, i requires 0 <= i < w.Length0 reads w => w[i, t])
  }

  /** `list(range(0, n))`. */
  function Range(n: nat): (r: seq<int>)
    ensures |r| == n && forall t :: 0 <= t < n ==> r[t] == t
  {
    seq(n, t => t)
  }

  /** `w[i, :]`: row i of a matrix. */
  function Row(w: array2<real>, i: nat): (r: seq<real>)
    requires i < w.Length0
    reads w
    ensures |r| == w.Length1 && forall t :: 0 <= t < w.Length1 ==> r[t] == w[i, t]
  {
    seq(w.Length1, t requires 0 <= t < w.Length1 reads w => w[i, t])
  }

  /** A percentile that stays within the sample stays within any bounds
      the whole sample keeps. */
  lemma PercentileWithin(pct: (seq<real>, real) -> real, xs: seq<real>, q: real, lo: real, hi: real)
    requires WithinSample(pct) && |xs| > 0
    requires forall i :: 0 <= i < |xs| ==> lo <= xs[i] <= hi
    ensures lo <= pct(xs, q) <= hi
  {
    var a :| 0 <= a < |xs| && xs[a] == Min(xs);
    var b :| 0 <= b < |xs| && xs[b] == Max(xs);
  }

  /** The percentile of a one-element sample is that element. */
  lemma PercentileOfOne(pct: (seq<real>, real) -> real, xs: seq<real>, q: real)
    requires WithinSample(pct) && |xs| == 1
    ensures pct(xs, q) == xs[0]
  {
    PercentileWithin(pct, xs, q, xs[0], xs[0]);
  }

  /** The same with a strict lower bound. */
  lemma PercentileAbove(pct: (seq<real>, real) -> real, xs: seq<real>, q: real, lo: real, hi: real)
    requires WithinSample(pct) && |xs| > 0
    requires forall i :: 0 <= i < |xs| ==> lo < xs[i] <= hi
    ensures lo < pct(xs, q) <= hi
  {
    var a :| 0 <= a < |xs| && xs[a] == Min(xs);
    var b :| 0 <= b < |xs| && xs[b] == Max(xs);
  }

  /** `np.percentile(w, q, axis=0)`: the q-th percentile of every column. */
  function ColumnBand(w: array2<real>, q: real, pct: (seq<real>, real) -> real): (r: seq<real>)
    reads w
    ensures |r| == w.Length1 && forall t :: 0 <= t < w.Length1 ==> r[t] == pct(Column(w, t), q)
  {
    seq(w.Length1, t requires 0 <= t < w.Length1 reads w => pct(Column(w, t), q))
  }

  /** The five bands `np.percentile(w, q, axis=0)` for q = 10, 25, 50, 75,
      90, read column by column off the matrix. */
  method ColumnPercentiles(w: array2<real>, pct: (seq<real>, real) -> real)
    returns (p10: seq<real>, p25: seq<real>, p50: seq<real>, p75: seq<real>, p90: seq<real>)
    ensures p10 == ColumnBand(w, 10.0, pct) && p25 == ColumnBand(w, 25.0, pct)
    ensures p50 == ColumnBand(w, 50.0, pct) && p75 == ColumnBand(w, 75.0, pct)
    ensures p90 == ColumnBand(w, 90.0, pct)
  {
    p10, p25, p50, p75, p90 := [], [], [], [], [];
    for t := 0 to w.Length1
      invariant p10 == ColumnBand(w, 10.0, pct)[..t] && p25 == ColumnBand(w, 25.0, pct)[..t]
      invariant p50 == ColumnBand(w, 50.0, pct)[..t] && p75 == ColumnBand(w, 75.0, pct)[..t]
      invariant p90 == ColumnBand(w, 90.0, pct)[..t]
    {
      var column := Column(w, t);
      p10 := p10 + [pct(column, 10.0)];
      p25 := p25 + [pct(column, 25.0)];
      p50 := p50 + [pct(column, 50.0)];
      p75 := p75 + [pct(column, 75.0)];
      p90 := p90 + [pct(column, 90.0)];
    }
  }
}
