/** Proleptic Gregorian calendar dates and the `add_months` helper that the
    mortgage, FIRE and drawdown backends each define (identically) to label
    their monthly series. */
module Calendar {
  import opened Numeric

  /** Python's `datetime.MINYEAR` and `datetime.MAXYEAR`. */
  const MinYear := 1
  const MaxYear := 9999

  datatype Date = Date(year: int, month: int, day: int)

  /** `calendar.isleap`. */
  predicate IsLeapYear(y: int) {
    y % 4 == 0 && (y % 100 != 0 || y % 400 == 0)
  }

  /** The second component of `calendar.monthrange(y, m)`. */
  function DaysInMonth(y: int, m: int): (n: int)
    requires 1 <= m <= 12
    ensures 28 <= n <= 31
    ensures n == 29 <==> m == 2 && IsLeapYear(y)
  {
    if m == 2 then (if IsLeapYear(y) then 29 else 28)
    else if m == 4 || m == 6 || m == 9 || m == 11 then 30
    else 31
  }

  /** What a `datetime.date` object always satisfies. */
  predicate ValidDate(d: Date) {
    MinYear <= d.year <= MaxYear && 1 <= d.month <= 12 && 1 <= d.day <= DaysInMonth(d.year, d.month)
  }

  /** Months elapsed since January of year 0: the quantity `add_months` shifts. */
  function MonthIndex(d: Date): int {
    d.year * 12 + d.month - 1
  }

  /** Strict chronological order of dates. */
  predicate Before(a: Date, b: Date) {
    a.year < b.year || (a.year == b.year && (a.month < b.month || (a.month == b.month && a.day < b.day)))
  }

  /** `add_months(d, months)`: the same day `months` calendar months later
      (earlier for a negative count), pulled back to the last day of the
      target month when that month is shorter. Python's `date` constructor
      raises when the target year leaves 1..9999; that is `None` here. */
  function AddMonths(d: Date, months: int): (r: Option<Date>)
    requires ValidDate(d)
    ensures r.Some? <==> MinYear <= d.year + (d.month - 1 + months) / 12 <= MaxYear
    ensures r.Some? ==> ValidDate(r.value)
    ensures r.Some? ==> r.value.year == d.year + (d.month - 1 + months) / 12
    ensures r.Some? ==> MonthIndex(r.value) == MonthIndex(d) + months
    ensures r.Some? ==> r.value.day <= d.day
    ensures r.Some? ==> (r.value.day == d.day <==> d.day <= DaysInMonth(r.value.year, r.value.month))
    ensures r.Some? && r.value.day != d.day ==> r.value.day == DaysInMonth(r.value.year, r.value.month)
  {
    var y := d.year + (d.month - 1 + months) / 12;
    var m := (d.month - 1 + months) % 12 + 1;
    var day := IntMin(d.day, DaysInMonth(y, m));
    if MinYear <= y <= MaxYear then Some(Date(y, m, day)) else None
  }

  /** Shifting by zero months is the identity. */
  lemma AddMonthsZero(d: Date)
    requires ValidDate(d)
    ensures AddMonths(d, 0) == Some(d)
  {
    var r := AddMonths(d, 0);
    assert (d.month - 1) / 12 == 0;
    assert r.value.month == d.month;
  }

  /** Shifting forward then back by the same count returns the original date
      whenever the day exists in every month (day 28 or earlier). */
  lemma AddMonthsRoundTrip(d: Date, k: int)
    requires ValidDate(d) && d.day <= 28
    requires AddMonths(d, k).Some?
    ensures AddMonths(AddMonths(d, k).value, -k) == Some(d)
  {
    var e := AddMonths(d, k).value;
    var back := AddMonths(e, -k);
    MonthIndexDetermines(e, -k);
    assert back.Some? by {
      var y := e.year + (e.month - 1 - k) / 12;
      assert y * 12 + (e.month - 1 - k) % 12 == MonthIndex(e) - k;
      assert MonthIndex(e) - k == d.year * 12 + d.month - 1;
      assert 0 <= (e.month - 1 - k) % 12 < 12;
      assert y == d.year;
    }
    assert MonthIndex(back.value) == MonthIndex(d);
    assert back.value.year == d.year && back.value.month == d.month;
  }

  /** Year and month computed by `add_months` recombine into the shifted month index. */
  lemma MonthIndexDetermines(e: Date, k: int)
    requires 1 <= e.month <= 12
    ensures (e.year + (e.month - 1 + k) / 12) * 12 + (e.month - 1 + k) % 12 == MonthIndex(e) + k
  {
  }

  /** Shifting twice lands in the month that one combined shift reaches, on a
      day no later than the combined shift gives. */
  lemma AddMonthsCompose(d: Date, a: int, b: int)
    requires ValidDate(d)
    requires AddMonths(d, a).Some? && AddMonths(AddMonths(d, a).value, b).Some?
    ensures AddMonths(d, a + b).Some?
    ensures MonthIndex(AddMonths(AddMonths(d, a).value, b).value) == MonthIndex(AddMonths(d, a + b).value)
    ensures AddMonths(AddMonths(d, a).value, b).value.day <= AddMonths(d, a + b).value.day
  {
    var e := AddMonths(d, a).value;
    var f := AddMonths(e, b).value;
    var y := d.year + (d.month - 1 + a + b) / 12;
    SameMonthIndex(f, Date(y, (d.month - 1 + a + b) % 12 + 1, 1));
  }

  /** Month index pins down year and month. */
  lemma SameMonthIndex(x: Date, y: Date)
    requires 1 <= x.month <= 12 && 1 <= y.month <= 12
    requires MonthIndex(x) == MonthIndex(y)
    ensures x.year == y.year && x.month == y.month
  {
  }

  /** Later shifts give strictly later dates. */
  lemma AddMonthsIncreasing(d: Date, i: int, j: int)
    requires ValidDate(d) && i < j
    requires AddMonths(d, i).Some? && AddMonths(d, j).Some?
    ensures Before(AddMonths(d, i).value, AddMonths(d, j).value)
  {
  }

  /** The target year of a forward shift never decreases as the shift grows. */
  lemma TargetYearMonotone(d: Date, i: nat, j: nat)
    requires 1 <= d.month <= 12 && i <= j
    ensures (d.month - 1 + i) / 12 <= (d.month - 1 + j) / 12
  {
  }

  /** `[add_months(start, m) for m in range(0, count)]`; the comprehension
      raises, so the result is `None`, as soon as one label is out of range. */
  function MonthLabels(start: Date, count: nat): (r: Option<seq<Date>>)
    requires ValidDate(start)
    ensures r.Some? <==> forall i :: 0 <= i < count ==> AddMonths(start, i).Some?
    ensures r.Some? ==> |r.value| == count
    ensures r.Some? ==> forall i :: 0 <= i < count ==> AddMonths(start, i) == Some(r.value[i])
  {
    if count == 0 then Some([])
    else
      match MonthLabels(start, count - 1)
      case None => None
      case Some(prev) =>
        match AddMonths(start, count - 1)
        case None => None
        case Some(d) => Some(prev + [d])
  }

  /** The labels exist exactly when the last one does; they start at `start`
      and are strictly increasing. */
  lemma MonthLabelsShape(start: Date, count: nat)
    requires ValidDate(start) && count > 0
    ensures MonthLabels(start, count).Some? <==> AddMonths(start, count - 1).Some?
    ensures MonthLabels(start, count).Some? ==> MonthLabels(start, count).value[0] == start
    ensures MonthLabels(start, count).Some? ==>
      forall i, j :: 0 <= i < j < count ==> Before(MonthLabels(start, count).value[i], MonthLabels(start, count).value[j])
  {
    if AddMonths(start, count - 1).Some? {
      forall i | 0 <= i < count
        ensures AddMonths(start, i).Some?
      {
        TargetYearMonotone(start, 0, i);
        TargetYearMonotone(start, i, count - 1);
        assert (start.month - 1 + 0) / 12 == 0;
      }
    }
    if MonthLabels(start, count).Some? {
      var ls := MonthLabels(start, count).value;
      AddMonthsZero(start);
      forall i, j | 0 <= i < j < count
        ensures Before(ls[i], ls[j])
      {
        AddMonthsIncreasing(start, i, j);
      }
    }
  }
}
