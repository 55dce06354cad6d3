/** Calendar arithmetic on naive datetimes: the proleptic Gregorian
    calendar of Python's `datetime`, the month arithmetic of
    `pd.DateOffset(months=n)` (which applies a dateutil `relativedelta`),
    and weekday names as pandas' `Series.dt.day_name()` gives them. */
module Calendar {

  datatype DateTime = DateTime(year: int, month: int, day: int, hour: int, minute: int, second: int)

  predicate IsLeap(y: int)
  {
    y % 4 == 0 && (y % 100 != 0 || y % 400 == 0)
  }

  function DaysInMonth(y: int, m: int): (n: int)
    requires 1 <= m <= 12
    ensures 28 <= n <= 31
    ensures n == 29 <==> m == 2 && IsLeap(y)
  {
    if m == 2 then (if IsLeap(y) then 29 else 28)
    else if m == 4 || m == 6 || m == 9 || m == 11 then 30
    else 31
  }

  /** The values a Python `datetime` can hold (to the second). */
  predicate Valid(t: DateTime)
  {
    && 1 <= t.year <= 9999
    && 1 <= t.month <= 12
    && 1 <= t.day <= DaysInMonth(t.year, t.month)
    && 0 <= t.hour < 24
    && 0 <= t.minute < 60
    && 0 <= t.second < 60
  }

  /** `a <= b`: fields compared most significant first. */
  predicate NotAfter(a: DateTime, b: DateTime)
  {
    if a.year != b.year then a.year < b.year
    else if a.month != b.month then a.month < b.month
    else if a.day != b.day then a.day < b.day
    else if a.hour != b.hour then a.hour < b.hour
    else if a.minute != b.minute then a.minute < b.minute
    else a.second <= b.second
  }

  /** `t.replace(day=1, hour=0, minute=0, second=0)`: the earliest instant
      of the month of `t`. */
  function MonthStart(t: DateTime): (r: DateTime)
    ensures r.year == t.year && r.month == t.month
    ensures Valid(t) ==> Valid(r) && NotAfter(r, t)
    ensures Valid(t) ==> forall u :: Valid(u) && u.year == t.year && u.month == t.month ==> NotAfter(r, u)
  {
    DateTime(t.year, t.month, 1, 0, 0, 0)
  }

  function Min(a: int, b: int): int
  {
    if a <= b then a else b
  }

  /** `t - pd.DateOffset(months=n)`: the month moves back `n` calendar
      months (crossing years as needed), the day is clamped to the length
      of the month reached, and the time of day is kept. Python refuses
      the result when its year is below 1. */
  function MonthsBack(t: DateTime, n: int): (r: DateTime)
    requires 1 <= t.month <= 12
    ensures 1 <= r.month <= 12
    ensures r.year * 12 + r.month == t.year * 12 + t.month - n
    ensures r.day == Min(t.day, DaysInMonth(r.year, r.month))
    ensures (r.hour, r.minute, r.second) == (t.hour, t.minute, t.second)
    ensures Valid(t) && n >= 1 && r.year >= 1 ==> Valid(r) && NotAfter(r, t) && r != t
  {
    var total := t.year * 12 + (t.month - 1) - n;
    var y, m := total / 12, total % 12 + 1;
    DateTime(y, m, Min(t.day, DaysInMonth(y, m)), t.hour, t.minute, t.second)
  }

  /** Days in the years before `y` (Python's `_days_before_year`). */
  function DaysBeforeYear(y: int): int
  {
    var p := y - 1;
    365 * p + p / 4 - p / 100 + p / 400
  }

  /** Days in the months of year `y` before month `m`. */
  function DaysBeforeMonth(y: int, m: int): int
    requires 1 <= m <= 12
  {
    [0, 31, 59, 90, 120, 151, 181, 212, 243, 273, 304, 334][m - 1]
      + (if m > 2 && IsLeap(y) then 1 else 0)
  }

  /** Python's `date.toordinal()`: 0001-01-01 is day 1. */
  function Ordinal(t: DateTime): int
    requires 1 <= t.month <= 12
  {
    DaysBeforeYear(t.year) + DaysBeforeMonth(t.year, t.month) + t.day
  }

  /** Python's `date.weekday()`: Monday is 0, Sunday is 6. */
  function Weekday(t: DateTime): (w: int)
    requires 1 <= t.month <= 12
    ensures 0 <= w < 7
  {
    (Ordinal(t) + 6) % 7
  }

  const WeekdayNames: seq<string> :=
    ["Monday", "Tuesday", "Wednesday", "Thursday", "Friday", "Saturday", "Sunday"]

  /** `Series.dt.day_name()` for one timestamp. */
  function WeekdayName(t: DateTime): (s: string)
    requires 1 <= t.month <= 12
    ensures s in WeekdayNames
  {
    WeekdayNames[Weekday(t)]
  }

  /** The calendar day after `t`, same time of day. */
  function NextDay(t: DateTime): DateTime
    requires Valid(t)
  {
    if t.day < DaysInMonth(t.year, t.month) then t.(day := t.day + 1)
    else if t.month < 12 then t.(month := t.month + 1, day := 1)
    else t.(year := t.year + 1, month := 1, day := 1)
  }

  /** Counting multiples: `y / k - (y - 1) / k` is 1 exactly when `k`
      divides `y`, for the divisors of the leap-year rule. */
  lemma DivSteps(y: int)
    ensures y / 4 - (y - 1) / 4 == (if y % 4 == 0 then 1 else 0)
    ensures y / 100 - (y - 1) / 100 == (if y % 100 == 0 then 1 else 0)
    ensures y / 400 - (y - 1) / 400 == (if y % 400 == 0 then 1 else 0)
  {
  }

  /** Multiples of 400 are multiples of 100, which are multiples of 4. */
  lemma MultipleChain(y: int)
    ensures y % 400 == 0 ==> y % 100 == 0
    ensures y % 100 == 0 ==> y % 4 == 0
  {
    if y % 400 == 0 {
      Multiple400(y);
    }
    if y % 100 == 0 {
      Multiple100(y);
    }
  }

  lemma Multiple400(y: int)
    requires y % 400 == 0
    ensures y % 100 == 0
  {
    var q := y / 400;
    assert y == 400 * q;
    assert y - 100 * (4 * q) == 0;
  }

  lemma Multiple100(y: int)
    requires y % 100 == 0
    ensures y % 4 == 0
  {
    var q := y / 100;
    assert y == 100 * q;
    assert y - 4 * (25 * q) == 0;
  }

  lemma DaysBeforeNextYear(y: int)
    ensures DaysBeforeYear(y + 1) == DaysBeforeYear(y) + (if IsLeap(y) then 366 else 365)
  {
    DivSteps(y);
    MultipleChain(y);
    assert DaysBeforeYear(y + 1) - DaysBeforeYear(y)
        == 365 + (y / 4 - (y - 1) / 4) - (y / 100 - (y - 1) / 100) + (y / 400 - (y - 1) / 400);
  }

  lemma DaysBeforeNextMonth(y: int, m: int)
    requires 1 <= m < 12
    ensures DaysBeforeMonth(y, m + 1) == DaysBeforeMonth(y, m) + DaysInMonth(y, m)
  {
  }

  /** Consecutive calendar days have consecutive ordinals. */
  lemma {:induction false} OrdinalNextDay(t: DateTime)
    requires Valid(t)
    ensures Ordinal(NextDay(t)) == Ordinal(t) + 1
  {
    var n := NextDay(t);
    if t.day < DaysInMonth(t.year, t.month) {
      assert n.year == t.year && n.month == t.month && n.day == t.day + 1;
    } else if t.month < 12 {
      assert n.year == t.year && n.month == t.month + 1 && n.day == 1;
      DaysBeforeNextMonth(t.year, t.month);
    } else {
      assert n.year == t.year + 1 && n.month == 1 && n.day == 1;
      assert DaysBeforeMonth(t.year, 12) + DaysInMonth(t.year, 12) == (if IsLeap(t.year) then 366 else 365);
      DaysBeforeNextYear(t.year);
    }
  }

  lemma ModSevenSucc(o: int)
    ensures (o + 1) % 7 == (o % 7 + 1) % 7
  {
    var q := o / 7;
    assert o == 7 * q + o % 7;
    if o % 7 == 6 {
      assert o + 1 == 7 * (q + 1);
    } else {
      assert o + 1 == 7 * q + (o % 7 + 1);
    }
  }

  /** Hence the weekday advances by one each day (0001-01-01 being a
      Monday, see `FirstDayIsMonday`). */
  lemma WeekdayNextDay(t: DateTime)
    requires Valid(t)
    ensures Weekday(NextDay(t)) == (Weekday(t) + 1) % 7
  {
    OrdinalNextDay(t);
    ModSevenSucc(Ordinal(t) + 6);
  }

  lemma FirstDayIsMonday()
    ensures Weekday(DateTime(1, 1, 1, 0, 0, 0)) == 0
  {
  }
}
