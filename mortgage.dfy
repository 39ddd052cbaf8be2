/** The mortgage backend: an annuity schedule with a fixed-rate period, a
    variable rate afterwards, optional payment recalculation at the switch,
    monthly overpayments and one-off lump sums, compared against a baseline
    schedule without the extras. */
module MortgageBackend {
  import opened Numeric
  import opened Calendar

  /** Python's `(1 + i) ** (-n)` or the final division raises
      ZeroDivisionError: the rate is -100% or (1 + i)^n is exactly 1. */
  predicate PaymentUndefined(i: real, n: int) {
    n > 0 && Abs(i) >= 1e-12 && (1.0 + i == 0.0 || Pow(1.0 + i, n) == 1.0)
  }

  /** `_pmt`: the level monthly payment that repays `balance` over `n`
      months at monthly rate `i`. */
  function Pmt(balance: real, i: real, n: int): (r: Option<real>)
    ensures r.None? <==> PaymentUndefined(i, n)
    ensures n <= 0 ==> r == Some(balance)
    ensures n > 0 && Abs(i) < 1e-12 ==> r == Some(balance / n as real)
    ensures n > 0 && Abs(i) >= 1e-12 && r.Some? ==>
      Pow(1.0 + i, n) != 0.0 && r.value * (1.0 - 1.0 / Pow(1.0 + i, n)) == balance * i
  {
    if n <= 0 then Some(balance)
    else if Abs(i) < 1e-12 then Some(balance / n as real)
    else if 1.0 + i == 0.0 then None
    else
      PowNonZero(1.0 + i, n);
      var discount := 1.0 / Pow(1.0 + i, n);
      if 1.0 - discount == 0.0 then None else Some(balance * i / (1.0 - discount))
  }

  /** Balance left after k months at monthly rate i paying p each month. */
  function Remaining(b: real, i: real, p: real, k: nat): real {
    if k == 0 then b else Remaining(b, i, p, k - 1) * (1.0 + i) - p
  }

  lemma {:induction false} RemainingClosedForm(b: real, i: real, p: real, k: nat)
    ensures i * Remaining(b, i, p, k) == b * i * Pow(1.0 + i, k) - p * (Pow(1.0 + i, k) - 1.0)
  {
    if k > 0 {
      RemainingClosedForm(b, i, p, k - 1);
      ClosedFormStep(b, i, p, Remaining(b, i, p, k - 1), Pow(1.0 + i, k - 1));
    }
  }

  /** One month of the closed form: if i*r = b*i*q - p*(q - 1) then the
      next month's balance satisfies the same identity with q*(1 + i). */
  lemma ClosedFormStep(b: real, i: real, p: real, r: real, q: real)
    requires i * r == b * i * q - p * (q - 1.0)
    ensures i * (r * (1.0 + i) - p) == b * i * ((1.0 + i) * q) - p * ((1.0 + i) * q - 1.0)
  {
    calc {
      i * (r * (1.0 + i) - p);
      (i * r) * (1.0 + i) - i * p;
      (b * i * q - p * (q - 1.0)) * (1.0 + i) - i * p;
      b * i * ((1.0 + i) * q) - p * ((1.0 + i) * q - 1.0);
    }
  }

  lemma {:induction false} RemainingZeroRate(b: real, p: real, k: nat)
    ensures Remaining(b, 0.0, p, k) == b - k as real * p
  {
    if k > 0 {
      RemainingZeroRate(b, p, k - 1);
    }
  }

  /** The annuity payment repays the balance exactly in `n` months (for a
      zero rate, and for every rate the tiny-rate shortcut does not catch). */
  lemma PaymentAmortizes(balance: real, i: real, n: int)
    requires n > 0 && Pmt(balance, i, n).Some?
    requires i == 0.0 || Abs(i) >= 1e-12
    ensures Remaining(balance, i, Pmt(balance, i, n).value, n) == 0.0
  {
    var p := Pmt(balance, i, n).value;
    if i == 0.0 {
      RemainingZeroRate(balance, p, n);
    } else {
      RemainingClosedForm(balance, i, p, n);
      AnnuityCancels(balance, i, p, Pow(1.0 + i, n), Remaining(balance, i, p, n));
    }
  }

  lemma AnnuityCancels(b: real, i: real, p: real, big: real, rest: real)
    requires i != 0.0 && big != 0.0
    requires p * (1.0 - 1.0 / big) == b * i
    requires i * rest == b * i * big - p * (big - 1.0)
    ensures rest == 0.0
  {
    assert p * (big - 1.0) == (p * (1.0 - 1.0 / big)) * big;
    assert i * rest == 0.0;
  }

  /** The inputs of `_amortize`; rates are annual. */
  datatype Terms = Terms(
    principal: real,
    termMonths: int,
    fixedMonths: int,
    fixedRate: real,
    variableRate: real,
    monthlyOverpay: real,
    extra: map<int, real>,
    recalcOnRateChange: bool)

  /** The five lists `_amortize` returns. */
  datatype Schedule = Schedule(
    balances: seq<real>,
    scheduled: seq<real>,
    totalPaid: seq<real>,
    interest: seq<real>,
    principalPaid: seq<real>)

  /** Monthly rate charged in month m (months count from 1). */
  function MonthlyRate(t: Terms, m: int): real {
    if m <= t.fixedMonths then t.fixedRate / 12.0 else t.variableRate / 12.0
  }

  /** `extra_map.get(m, 0.0)`. */
  function Lump(extra: map<int, real>, m: int): real {
    if m in extra then extra[m] else 0.0
  }

  /** Balances in (-1e-6, 0) are rounding noise and become 0. */
  function SnapToZero(x: real): real {
    if x < 0.0 && x > -1e-6 then 0.0 else x
  }

  /** Month m pays the recalculated instalment: recalculation is on and the
      rate switch (month fixedMonths + 1) has been reached. */
  predicate Recalculated(t: Terms, m: int) {
    t.recalcOnRateChange && 0 <= t.fixedMonths && t.fixedMonths + 1 <= m
  }

  predicate Shaped(s: Schedule) {
    |s.balances| == |s.scheduled| + 1 && |s.totalPaid| == |s.scheduled|
    && |s.interest| == |s.scheduled| && |s.principalPaid| == |s.scheduled|
  }

  /** Accounting of month m, in the order `_amortize` computes it: interest
      on the opening balance, the total paid, the principal part, and the
      closing balance with rounding noise snapped to zero. */
  predicate MonthOk(t: Terms, m: int, bal: real, pay: real, total: real, intr: real, princ: real, next: real) {
    && intr == bal * MonthlyRate(t, m)
    && total == pay + t.monthlyOverpay + Lump(t.extra, m)
    && princ == total - intr
    && next == SnapToZero(bal + intr - total)
  }

  /** The scheduled instalment of month k + 1: recalculated from the balance
      at the rate switch, or the initial annuity payment. */
  predicate PaymentsOk(t: Terms, s: Schedule)
    requires Shaped(s)
  {
    && (forall k :: 0 <= k < |s.scheduled| && Recalculated(t, k + 1) ==>
          Pmt(s.balances[t.fixedMonths], t.variableRate / 12.0, t.termMonths - t.fixedMonths) == Some(s.scheduled[k]))
    && (forall k :: 0 <= k < |s.scheduled| && !Recalculated(t, k + 1) ==>
          Pmt(t.principal, t.fixedRate / 12.0, t.termMonths) == Some(s.scheduled[k]))
  }

  predicate MonthsOk(t: Terms, s: Schedule)
    requires Shaped(s)
  {
    forall k :: 0 <= k < |s.scheduled| ==>
      MonthOk(t, k + 1, s.balances[k], s.scheduled[k], s.totalPaid[k], s.interest[k], s.principalPaid[k], s.balances[k + 1])
  }

  /** What `_amortize` returns: one row per month from month 1, stopping after
      the first month whose balance is at most zero, or after the term. */
  predicate IsSchedule(t: Terms, s: Schedule) {
    && Shaped(s)
    && s.balances[0] == t.principal
    && |s.scheduled| <= IntMax(t.termMonths, 0)
    && MonthsOk(t, s)
    && PaymentsOk(t, s)
    && (forall k :: 1 <= k < |s.balances| - 1 ==> s.balances[k] > 0.0)
    && (|s.scheduled| == IntMax(t.termMonths, 0) || (|s.scheduled| > 0 && s.balances[|s.scheduled|] <= 0.0))
  }

  /** `_amortize`. Fails only where `_pmt` divides by zero: at the start, or
      at the recalculation if the loop gets that far. */
  method Amortize(t: Terms) returns (r: Option<Schedule>)
    ensures r.Some? ==> IsSchedule(t, r.value)
    ensures PaymentUndefined(t.fixedRate / 12.0, t.termMonths) ==> r.None?
    ensures r.None? ==> (PaymentUndefined(t.fixedRate / 12.0, t.termMonths)
      || (t.recalcOnRateChange && 0 <= t.fixedMonths < t.termMonths
          && PaymentUndefined(t.variableRate / 12.0, t.termMonths - t.fixedMonths)))
  {
    var bal := t.principal;
    var iFixed := t.fixedRate / 12.0;
    var iVar := t.variableRate / 12.0;
    var balances, sched, totalp, interest, principalPaid := [bal], [], [], [], [];
    var monthsLeft := t.termMonths;
    var first := Pmt(bal, iFixed, monthsLeft);
    if first.None? {
      return None;
    }
    var pmt := first.value;
    var m := 1;
    while m <= t.termMonths
      invariant 1 <= m <= IntMax(t.termMonths, 0) + 1
      invariant |balances| == m && bal == balances[m - 1]
      invariant Shaped(Schedule(balances, sched, totalp, interest, principalPaid))
      invariant balances[0] == t.principal
      invariant MonthsOk(t, Schedule(balances, sched, totalp, interest, principalPaid))
      invariant PaymentsOk(t, Schedule(balances, sched, totalp, interest, principalPaid))
      invariant forall k :: 1 <= k < m ==> balances[k] > 0.0
      invariant if Recalculated(t, m) && m != t.fixedMonths + 1
        then Pmt(balances[t.fixedMonths], iVar, t.termMonths - t.fixedMonths) == Some(pmt)
        else Pmt(t.principal, iFixed, t.termMonths) == Some(pmt)
      decreases t.termMonths - m
    {
      var rate := if m <= t.fixedMonths then iFixed else iVar;
      if t.recalcOnRateChange && m == t.fixedMonths + 1 {
        monthsLeft := t.termMonths - (m - 1);
        var again := Pmt(bal, rate, monthsLeft);
        if again.None? {
          return None;
        }
        pmt := again.value;
      }
      var payTotal, intr, princ, newBal := AccrueMonth(t, m, bal, pmt, rate);
      ghost var s := Schedule(balances, sched, totalp, interest, principalPaid);
      AppendMonth(t, s, pmt, payTotal, intr, princ, newBal);
      balances := balances + [newBal];
      sched := sched + [pmt];
      totalp := totalp + [payTotal];
      interest := interest + [intr];
      principalPaid := principalPaid + [princ];
      bal := newBal;
      if bal <= 0.0 {
        return Some(Schedule(balances, sched, totalp, interest, principalPaid));
      }
      m := m + 1;
    }
    r := Some(Schedule(balances, sched, totalp, interest, principalPaid));
  }

  /** One month of `_amortize`'s arithmetic at the given rate: interest on
      the opening balance, the total paid including overpayment and lump sum,
      its principal part, and the closing balance. */
  method AccrueMonth(t: Terms, m: int, bal: real, pmt: real, rate: real)
    returns (payTotal: real, intr: real, princ: real, newBal: real)
    requires rate == MonthlyRate(t, m)
    ensures MonthOk(t, m, bal, pmt, payTotal, intr, princ, newBal)
  {
    intr := bal * rate;
    var lump := Lump(t.extra, m);
    payTotal := pmt + t.monthlyOverpay + lump;
    newBal := bal + intr - payTotal;
    princ := payTotal - intr;
    if newBal < 0.0 && newBal > -1e-6 {
      newBal := 0.0;
    }
  }

  /** Appending one month whose accounting and instalment are right keeps
      the whole schedule right. */
  lemma AppendMonth(t: Terms, s: Schedule, pay: real, total: real, intr: real, princ: real, next: real)
    requires Shaped(s) && MonthsOk(t, s) && PaymentsOk(t, s)
    requires MonthOk(t, |s.balances|, s.balances[|s.balances| - 1], pay, total, intr, princ, next)
    requires Recalculated(t, |s.balances|) ==>
      (0 <= t.fixedMonths < |s.balances|
       && Pmt(s.balances[t.fixedMonths], t.variableRate / 12.0, t.termMonths - t.fixedMonths) == Some(pay))
    requires !Recalculated(t, |s.balances|) ==> Pmt(t.principal, t.fixedRate / 12.0, t.termMonths) == Some(pay)
    ensures var s' := Schedule(s.balances + [next], s.scheduled + [pay], s.totalPaid + [total],
                               s.interest + [intr], s.principalPaid + [princ]);
      Shaped(s') && MonthsOk(t, s') && PaymentsOk(t, s')
  {
    var s' := Schedule(s.balances + [next], s.scheduled + [pay], s.totalPaid + [total],
                       s.interest + [intr], s.principalPaid + [princ]);
    assert Shaped(s');
    forall k | 0 <= k < |s'.scheduled|
      ensures MonthOk(t, k + 1, s'.balances[k], s'.scheduled[k], s'.totalPaid[k], s'.interest[k], s'.principalPaid[k], s'.balances[k + 1])
    {
      if k < |s.scheduled| {
        assert MonthOk(t, k + 1, s.balances[k], s.scheduled[k], s.totalPaid[k], s.interest[k], s.principalPaid[k], s.balances[k + 1]);
      }
    }
  }

  /** Until the last month every balance is the principal less the
      principal repaid so far. */
  lemma {:induction false} BalanceTelescopes(t: Terms, s: Schedule, k: nat)
    requires IsSchedule(t, s) && k < |s.balances| - 1
    ensures s.balances[k] == t.principal - Sum(s.principalPaid[..k])
  {
    if k > 0 {
      BalanceTelescopes(t, s, k - 1);
      assert MonthOk(t, k, s.balances[k - 1], s.scheduled[k - 1], s.totalPaid[k - 1], s.interest[k - 1], s.principalPaid[k - 1], s.balances[k]);
      assert s.principalPaid[..k][..k - 1] == s.principalPaid[..k - 1];
      assert s.balances[k] > 0.0;
    }
  }

  /** Principal accounting: principal repaid plus the closing balance equals
      the loan, up to the noise that SnapToZero removes in the last month. */
  lemma PrincipalAccounting(t: Terms, s: Schedule)
    requires IsSchedule(t, s)
    ensures t.principal <= Sum(s.principalPaid) + s.balances[|s.balances| - 1] < t.principal + 1e-6
  {
    var n := |s.scheduled|;
    if n > 0 {
      BalanceTelescopes(t, s, n - 1);
      assert MonthOk(t, n, s.balances[n - 1], s.scheduled[n - 1], s.totalPaid[n - 1], s.interest[n - 1], s.principalPaid[n - 1], s.balances[n]);
      assert s.principalPaid[..n] == s.principalPaid;
      assert s.principalPaid[..n][..n - 1] == s.principalPaid[..n - 1];
    }
  }

  /** Sum of the interest charged month by month on the opening balance. */
  function InterestCharged(t: Terms, s: Schedule, k: nat): real
    requires Shaped(s) && k <= |s.scheduled|
  {
    if k == 0 then 0.0 else InterestCharged(t, s, k - 1) + s.balances[k - 1] * MonthlyRate(t, k)
  }

  /** Total interest of a schedule (the corrected `total_interest`): the
      interest lists summed over the months the loan was actually open. */
  function TotalInterest(s: Schedule): real {
    Sum(s.interest)
  }

  /** `total_interest` is exactly the interest charged while the loan was open. */
  lemma TotalInterestIsCharged(t: Terms, s: Schedule)
    requires IsSchedule(t, s)
    ensures TotalInterest(s) == InterestCharged(t, s, |s.scheduled|)
  {
    assert s.interest[..|s.interest|] == s.interest;
    InterestPrefix(t, s, |s.scheduled|);
  }

  lemma {:induction false} InterestPrefix(t: Terms, s: Schedule, k: nat)
    requires Shaped(s) && MonthsOk(t, s) && k <= |s.scheduled|
    ensures Sum(s.interest[..k]) == InterestCharged(t, s, k)
  {
    if k > 0 {
      InterestPrefix(t, s, k - 1);
      assert s.interest[..k][..k - 1] == s.interest[..k - 1];
      assert MonthOk(t, k, s.balances[k - 1], s.scheduled[k - 1], s.totalPaid[k - 1], s.interest[k - 1], s.principalPaid[k - 1], s.balances[k]);
    }
  }

  /** `total_interest` as the handler computes it: the summed list has first
      been padded to the baseline's length with copies of its last entry. */
  function TotalInterestAsWritten(interest: seq<real>, l: int): real
    requires 0 <= l - 1 && (l - 1 <= |interest| || |interest| > 0)
  {
    Sum(Pad(interest, l - 1))
  }

  /** A schedule that pays off in month 1 (one month of interest, 10.0)
      against a 24-month baseline (L = 25): the handler reports 240.0. */
  lemma PaddedInterestOvercounts()
    ensures TotalInterestAsWritten([10.0], 25) == 240.0
    ensures TotalInterest(Schedule([1000.0, 0.0], [47.0], [1010.0], [10.0], [1000.0])) == 10.0
  {
    var padded := Pad([10.0], 24);
    ConstantSum(10.0, 24);
    assert padded == Repeat(10.0, 24);
  }

  /** One entry of the request's `extra_payments`. */
  datatype ExtraPayment = ExtraPayment(year: int, month: int, amount: real)

  /** The month the payment lands in, counting from 1. */
  function PaymentMonth(p: ExtraPayment): int {
    p.year * 12 + p.month + 1
  }

  /** Sum of the amounts of the payments that land in month k. */
  function LumpTotal(ps: seq<ExtraPayment>, k: int): real {
    if |ps| == 0 then 0.0
    else LumpTotal(ps[..|ps| - 1], k) + (if PaymentMonth(ps[|ps| - 1]) == k then ps[|ps| - 1].amount else 0.0)
  }

  lemma {:induction false} LumpTotalNone(ps: seq<ExtraPayment>, k: int)
    requires forall j :: 0 <= j < |ps| ==> PaymentMonth(ps[j]) != k
    ensures LumpTotal(ps, k) == 0.0
  {
    if |ps| > 0 {
      LumpTotalNone(ps[..|ps| - 1], k);
    }
  }

  /** The `extra_map` loop: payments outside months 1..termMonths are
      dropped, payments landing in the same month are added up. */
  method BuildExtraMap(ps: seq<ExtraPayment>, termMonths: int) returns (m: map<int, real>)
    ensures forall k :: k in m <==> 1 <= k <= termMonths && exists j :: 0 <= j < |ps| && PaymentMonth(ps[j]) == k
    ensures forall k :: Lump(m, k) == if 1 <= k <= termMonths then LumpTotal(ps, k) else 0.0
  {
    m := map[];
    for n := 0 to |ps|
      invariant forall k :: k in m <==> 1 <= k <= termMonths && exists j :: 0 <= j < n && PaymentMonth(ps[j]) == k
      invariant forall k :: k in m ==> m[k] == LumpTotal(ps[..n], k)
    {
      assert ps[..n + 1][..n] == ps[..n];
      ghost var prev := m;
      var idx := ps[n].year * 12 + ps[n].month + 1;
      if 1 <= idx <= termMonths {
        m := m[idx := Lump(m, idx) + ps[n].amount];
      }
      forall k | k in m
        ensures m[k] == LumpTotal(ps[..n + 1], k)
      {
        if k == idx && k !in prev {
          LumpTotalNone(ps[..n], k);
        }
      }
    }
    assert ps[..|ps|] == ps;
    forall k
      ensures Lump(m, k) == if 1 <= k <= termMonths then LumpTotal(ps, k) else 0.0
    {
      if 1 <= k <= termMonths && k !in m {
        LumpTotalNone(ps, k);
      }
    }
  }

  /** `_pad`: exactly l entries, the original prefix, then copies of the
      last entry. */
  function Pad(arr: seq<real>, l: int): (r: seq<real>)
    requires 0 <= l && (l <= |arr| || |arr| > 0)
    ensures |r| == l
    ensures forall k :: 0 <= k < l && k < |arr| ==> r[k] == arr[k]
    ensures forall k :: |arr| <= k < l ==> r[k] == arr[|arr| - 1]
  {
    if |arr| >= l then arr[..l] else arr + Repeat(arr[|arr| - 1], l - |arr|)
  }

  /** The index `_payoff_month` returns: the first balance at or below zero,
      else the last index (-1 for an empty list). */
  function PayoffIndex(bals: seq<real>): (r: int)
    ensures |bals| == 0 ==> r == -1
    ensures |bals| > 0 ==> 0 <= r < |bals|
    ensures forall j :: 0 <= j < r ==> bals[j] > 0.0
    ensures 0 <= r ==> bals[r] <= 0.0 || (r == |bals| - 1 && forall j :: 0 <= j < |bals| ==> bals[j] > 0.0)
  {
    if |bals| == 0 then -1 else FirstAtMostZero(bals, 0)
  }

  function FirstAtMostZero(bals: seq<real>, from: nat): (r: nat)
    requires from < |bals|
    requires forall j :: 0 <= j < from ==> bals[j] > 0.0
    ensures from <= r < |bals|
    ensures forall j :: 0 <= j < r ==> bals[j] > 0.0
    ensures bals[r] <= 0.0 || (r == |bals| - 1 && forall j :: 0 <= j < |bals| ==> bals[j] > 0.0)
    decreases |bals| - from
  {
    if bals[from] <= 0.0 || from == |bals| - 1 then from else FirstAtMostZero(bals, from + 1)
  }

  /** `_payoff_month`: a search loop that returns at the first balance at or
      below zero. */
  method PayoffMonth(bals: seq<real>) returns (idx: int)
    ensures idx == PayoffIndex(bals)
  {
    for i := 0 to |bals|
      invariant forall j :: 0 <= j < i ==> bals[j] > 0.0
    {
      if bals[i] <= 0.0 {
        return i;
      }
    }
    return |bals| - 1;
  }

  /** Padding a schedule that has already stopped at a non-positive balance
      does not move its payoff month. */
  lemma PadKeepsPayoff(bals: seq<real>, l: int)
    requires |bals| > 0 && |bals| <= l
    requires bals[|bals| - 1] <= 0.0 || l == |bals|
    ensures PayoffIndex(Pad(bals, l)) == PayoffIndex(bals)
  {
    var p := Pad(bals, l);
    var i := PayoffIndex(bals);
    assert p[i] == bals[i];
    if p[i] > 0.0 {
      assert i == |bals| - 1;
    }
  }

  datatype MortgageRequest = MortgageRequest(
    principal: real,
    termYears: int,
    fixedYears: int,
    fixedRate: real,
    variableRate: real,
    monthlyOverpayment: real,
    extraPayments: seq<ExtraPayment>,
    startDate: Option<Date>,
    recalcOnRateChange: bool,
    decimals: int)

  datatype MortgageSummary = MortgageSummary(
    payoffMonths: int,
    payoffDate: Date,
    baselinePayoffMonths: int,
    baselinePayoffDate: Date,
    totalInterest: real,
    baselineTotalInterest: real,
    interestSaved: real,
    monthsSaved: int,
    endingBalance: real,
    isBalloon: bool,
    fixedMonths: int)

  datatype MortgageResponse = MortgageResponse(
    labels: seq<Date>,
    balance: seq<real>,
    baselineBalance: seq<real>,
    schedulePayment: seq<real>,
    totalPayment: seq<real>,
    interest: seq<real>,
    principal: seq<real>,
    summary: MortgageSummary,
    digits: nat)

  /** The summary of a response over the given labels and (padded)
      balances: both payoff months are dated by their label, the payoff
      month is `_payoff_month` of the balances, the savings are clamped at
      zero, and the ending balance is the last one. */
  predicate SummaryOk(s: MortgageSummary, labels: seq<Date>, balances: seq<real>, fixedM: int)
    requires 0 < |balances| == |labels|
  {
    && s.payoffMonths == PayoffIndex(balances) && s.payoffDate == labels[s.payoffMonths]
    && 0 <= s.baselinePayoffMonths < |labels| && s.baselinePayoffDate == labels[s.baselinePayoffMonths]
    && s.interestSaved == RealMax(0.0, s.baselineTotalInterest - s.totalInterest) && s.interestSaved >= 0.0
    && s.monthsSaved == IntMax(0, s.baselinePayoffMonths - s.payoffMonths) && s.monthsSaved >= 0
    && s.endingBalance == balances[|balances| - 1] && s.isBalloon == (s.endingBalance > 0.0)
    && s.fixedMonths == fixedM
  }

  /** The summary block of `/mortgage`: `_payoff_month` on the padded main
      balances and on the unpadded baseline, and the two interest totals. */
  method Summarize(balances: seq<real>, baseBalances: seq<real>, interest: real, baseInterest: real,
                   labels: seq<Date>, fixedM: int) returns (s: MortgageSummary)
    requires |balances| == |labels| && 0 < |baseBalances| <= |labels|
    ensures SummaryOk(s, labels, balances, fixedM)
    ensures s.baselinePayoffMonths == PayoffIndex(baseBalances)
    ensures s.totalInterest == interest && s.baselineTotalInterest == baseInterest
  {
    var mOff := PayoffMonth(balances);
    var mBase := PayoffMonth(baseBalances);
    var interestSaved := RealMax(0.0, baseInterest - interest);
    var monthsSaved := IntMax(0, mBase - mOff);
    var endingBalance := balances[|balances| - 1];
    s := MortgageSummary(
      mOff, labels[mOff], mBase, labels[mBase],
      interest, baseInterest, interestSaved, monthsSaved,
      endingBalance, endingBalance > 0.0, fixedM);
  }

  /** The date the labels start from: the request's, else today. */
  function StartDate(req: MortgageRequest, today: Date): Date {
    if req.startDate.Some? then req.startDate.value else today
  }

  /** What every `/mortgage` response satisfies: one dated label per month
      from the start, every series as long as the labels and opening at the
      loan amount (the monthly series with a leading 0), and a summary that
      reads the padded balances. */
  predicate ResponseOk(req: MortgageRequest, start: Date, r: MortgageResponse)
    requires ValidDate(start)
  {
    var l := |r.labels|;
    var s := r.summary;
    && l >= 1
    && (req.termYears >= 0 ==> l <= req.termYears * 12 + 1)
    && |r.balance| == l && |r.baselineBalance| == l && |r.schedulePayment| == l
    && |r.totalPayment| == l && |r.interest| == l && |r.principal| == l
    && r.balance[0] == req.principal && r.baselineBalance[0] == req.principal
    && r.schedulePayment[0] == 0.0 && r.totalPayment[0] == 0.0 && r.interest[0] == 0.0 && r.principal[0] == 0.0
    && (forall i :: 0 <= i < l ==> AddMonths(start, i) == Some(r.labels[i]))
    && SummaryOk(s, r.labels, r.balance, req.fixedYears * 12)
    && r.digits == IntMax(0, req.decimals)
  }

  /** A schedule as `_amortize` hands it to the handler: well shaped, opening
      at the loan amount, no longer than the term, and at least one month
      long unless the term is empty. */
  predicate Opens(s: Schedule, principal: real, termM: int) {
    && Shaped(s) && s.balances[0] == principal && |s.scheduled| <= IntMax(termM, 0)
    && (|s.scheduled| == IntMax(termM, 0) || |s.scheduled| > 0)
  }

  /** Pads to the same length line up when the main schedule has a month
      whenever the baseline does. */
  predicate Comparable(ms: Schedule, bs: Schedule) {
    Shaped(ms) && Shaped(bs) && (|ms.scheduled| > 0 || |bs.scheduled| == 0)
  }

  /** The series and totals of a response, read off the two schedules: the
      balances padded to the longer schedule, the monthly series padded one
      shorter behind a leading 0, the corrected interest totals and the
      baseline's own payoff month. */
  predicate SeriesOk(r: MortgageResponse, ms: Schedule, bs: Schedule)
    requires Comparable(ms, bs)
  {
    var l := IntMax(|ms.balances|, |bs.balances|);
    && |r.labels| == l
    && r.balance == Pad(ms.balances, l)
    && r.baselineBalance == Pad(bs.balances, l)
    && r.schedulePayment == [0.0] + Pad(ms.scheduled, l - 1)
    && r.totalPayment == [0.0] + Pad(ms.totalPaid, l - 1)
    && r.interest == [0.0] + Pad(ms.interest, l - 1)
    && r.principal == [0.0] + Pad(ms.principalPaid, l - 1)
    && r.summary.totalInterest == TotalInterest(ms)
    && r.summary.baselineTotalInterest == TotalInterest(bs)
    && r.summary.baselinePayoffMonths == PayoffIndex(bs.balances)
  }

  /** Each month the main schedule runs, the response's columns obey that
      month's accounting: interest on the previous balance, the total paid,
      its principal part and the closing balance. */
  lemma ResponseMonths(t: Terms, ms: Schedule, bs: Schedule, r: MortgageResponse)
    requires IsSchedule(t, ms) && Comparable(ms, bs) && SeriesOk(r, ms, bs)
    ensures forall k :: 1 <= k <= |ms.scheduled| ==>
      MonthOk(t, k, r.balance[k - 1], r.schedulePayment[k], r.totalPayment[k], r.interest[k], r.principal[k], r.balance[k])
  {
    forall k | 1 <= k <= |ms.scheduled|
      ensures MonthOk(t, k, r.balance[k - 1], r.schedulePayment[k], r.totalPayment[k], r.interest[k], r.principal[k], r.balance[k])
    {
      assert MonthOk(t, k, ms.balances[k - 1], ms.scheduled[k - 1], ms.totalPaid[k - 1], ms.interest[k - 1],
                     ms.principalPaid[k - 1], ms.balances[k]);
    }
  }

  /** When the main schedule is the longer one nothing is padded, and the
      corrected total is the total the handler computes. */
  lemma NoPaddingNoOvercount(ms: Schedule, bs: Schedule)
    requires Comparable(ms, bs) && |ms.balances| >= |bs.balances|
    ensures TotalInterestAsWritten(ms.interest, IntMax(|ms.balances|, |bs.balances|)) == TotalInterest(ms)
  {
    assert Pad(ms.interest, |ms.balances| - 1) == ms.interest;
  }

  /** The `_amortize` arguments of the main schedule. */
  function MainTerms(req: MortgageRequest, extra: map<int, real>): Terms {
    Terms(req.principal, req.termYears * 12, req.fixedYears * 12, req.fixedRate, req.variableRate,
          req.monthlyOverpayment, extra, req.recalcOnRateChange)
  }

  /** The `_amortize` arguments of the baseline: no overpayment, no lumps. */
  function BaseTerms(req: MortgageRequest): Terms {
    Terms(req.principal, req.termYears * 12, req.fixedYears * 12, req.fixedRate, req.variableRate,
          0.0, map[], req.recalcOnRateChange)
  }

  /** What `_amortize` returns is what the handler expects of it. */
  lemma ScheduleOpens(t: Terms, s: Schedule)
    requires IsSchedule(t, s)
    ensures Opens(s, t.principal, t.termMonths)
  {
  }

  /** The `/mortgage` handler, with today's date as a parameter. It fails
      where `_amortize` or a label does. A response is built from the
      extra-payment map of the request and the two schedules `_amortize`
      produces from it (returned as ghosts). */
  method Mortgage(req: MortgageRequest, today: Date)
    returns (res: Option<MortgageResponse>, ghost extra: map<int, real>, ghost main: Schedule, ghost base: Schedule)
    requires ValidDate(today)
    requires req.startDate.Some? ==> ValidDate(req.startDate.value)
    ensures res.Some? ==> ResponseOk(req, StartDate(req, today), res.value)
    ensures res.Some? ==> forall k :: Lump(extra, k) == if 1 <= k <= req.termYears * 12 then LumpTotal(req.extraPayments, k) else 0.0
    ensures res.Some? ==> IsSchedule(MainTerms(req, extra), main) && IsSchedule(BaseTerms(req), base)
    ensures res.Some? ==> Comparable(main, base) && SeriesOk(res.value, main, base)
  {
    var termM := req.termYears * 12;
    var start := if req.startDate.Some? then req.startDate.value else today;
    var lumps := BuildExtraMap(req.extraPayments, termM);
    extra, main, base := lumps, Schedule([], [], [], [], []), Schedule([], [], [], [], []);
    var ms := Amortize(MainTerms(req, lumps));
    if ms.None? {
      return None, extra, main, base;
    }
    var bs := Amortize(BaseTerms(req));
    if bs.None? {
      return None, extra, main, base;
    }
    main, base := ms.value, bs.value;
    ScheduleOpens(MainTerms(req, lumps), main);
    ScheduleOpens(BaseTerms(req), base);
    res := Respond(req, start, ms.value, bs.value);
  }

  /** The handler after both schedules exist: labels, padding and summary. */
  method Respond(req: MortgageRequest, start: Date, ms: Schedule, bs: Schedule) returns (res: Option<MortgageResponse>)
    requires ValidDate(start)
    requires Opens(ms, req.principal, req.termYears * 12) && Opens(bs, req.principal, req.termYears * 12)
    ensures Comparable(ms, bs)
    ensures res.None? <==> MonthLabels(start, IntMax(|ms.balances|, |bs.balances|)).None?
    ensures res.Some? ==> ResponseOk(req, start, res.value)
    ensures res.Some? ==> SeriesOk(res.value, ms, bs)
  {
    var fixedM := req.fixedYears * 12;
    var digits := IntMax(0, req.decimals);
    var l := IntMax(|ms.balances|, |bs.balances|);
    var labels := MonthLabels(start, l);
    if labels.None? {
      return None;
    }

    var balances := Pad(ms.balances, l);
    var baseline := Pad(bs.balances, l);
    var sched := Pad(ms.scheduled, l - 1);
    var totalp := Pad(ms.totalPaid, l - 1);
    var intr := Pad(ms.interest, l - 1);
    var princ := Pad(ms.principalPaid, l - 1);

    var summary := Summarize(balances, bs.balances, TotalInterest(ms), TotalInterest(bs), labels.value, fixedM);
    var r := MortgageResponse(
      labels.value, balances, baseline,
      [0.0] + sched, [0.0] + totalp, [0.0] + intr, [0.0] + princ,
      summary, digits);
    res := Some(r);
  }
}
