/** `spending_by_weekday` (src/reports.py): the caller's table is passed
    through `filter_by_date_range` with a three-month window; the kept
    rows' date cells are converted with `pd.to_datetime` and give a weekday
    column, the expenses among them are grouped by weekday name, and each
    group's mean amount is returned as its absolute value rounded to
    kopecks. */
module Reports {
  import opened Seqs
  import opened Text
  import opened Money
  import opened Calendar
  import opened Outcomes
  import opened Ledger
  import opened Strptime
  import opened DateFilter

  /** The window of the report, in months. */
  const ThreeMonths: int := 3

  /** A kept row once the `weekdays` column is assigned; only the weekday
      and the amount are read after that. */
  datatype Dated = Dated(weekday: string, amount: Option<int>)

  /** One record of the result: a weekday and its mean spending, in
      kopecks. */
  datatype DaySpending = DaySpending(weekday: string, spending: nat)

  /** A date cell `pd.to_datetime(..., format="%d.%m.%Y %H:%M:%S")`
      converts: a `datetime` (always a valid instant), or a text that
      parses with the format. */
  predicate HasInstant(c: DateCell)
  {
    (c.Stamp? && Valid(c.t)) || CellDate(c).Ok?
  }

  /** The instant `pd.to_datetime` gives such a cell: a `datetime` is taken
      as it is, a text is parsed. */
  function Instant(c: DateCell): (t: DateTime)
    requires HasInstant(c)
    ensures Valid(t)
    ensures c.Stamp? ==> t == c.t
    ensures c.Text? ==> CellDate(c) == Ok(t)
  {
    if c.Stamp? then c.t else CellDate(c).value
  }

  /** Every row's date cell converts. */
  ghost predicate AllDated(rows: seq<Row>)
  {
    forall i :: 0 <= i < |rows| ==> HasInstant(rows[i].operationDate)
  }

  /** `pd.to_datetime` on the kept date cells, then
      `assign(weekdays=df["Дата операции"].dt.day_name())`. */
  function WithWeekdays(kept: seq<Row>): (ds: seq<Dated>)
    requires AllDated(kept)
    ensures |ds| == |kept|
  {
    seq(|kept|, i requires 0 <= i < |kept| => Dated(WeekdayName(Instant(kept[i].operationDate)), kept[i].amount))
  }

  /** `df["Сумма платежа"] < 0`. */
  predicate IsSpend(d: Dated)
  {
    d.amount.Some? && d.amount.value < 0
  }

  /** The `weekdays` column. */
  function Days(ds: seq<Dated>): (r: seq<string>)
    ensures |r| == |ds|
  {
    seq(|ds|, i requires 0 <= i < |ds| => ds[i].weekday)
  }

  /** The sum and the count of the (non-empty) amounts of day `w`: what
      `mean` divides. */
  function GroupSum(ds: seq<Dated>, w: string): int
  {
    if ds == [] then 0
    else (if ds[0].weekday == w && ds[0].amount.Some? then ds[0].amount.value else 0) + GroupSum(ds[1..], w)
  }

  function GroupCount(ds: seq<Dated>, w: string): nat
  {
    if ds == [] then 0
    else (if ds[0].weekday == w && ds[0].amount.Some? then 1 else 0) + GroupCount(ds[1..], w)
  }

  /** A day that occurs among rows that all have an amount has a group
      of at least one amount. */
  lemma {:induction false} GroupCountPositive(ds: seq<Dated>, w: string)
    requires forall d :: d in ds ==> d.amount.Some?
    requires w in Days(ds)
    ensures GroupCount(ds, w) > 0
  {
    if ds[0].weekday != w {
      assert w in Days(ds[1..]) by {
        var i :| 0 <= i < |ds| && Days(ds)[i] == w;
        assert i > 0 && Days(ds[1..])[i - 1] == w;
      }
      assert forall d :: d in ds[1..] ==> d in ds;
      GroupCountPositive(ds[1..], w);
    }
  }

  /** The weekday names of the records. */
  function Weekdays(out: seq<DaySpending>): (r: seq<string>)
    ensures |r| == |out|
  {
    seq(|out|, i requires 0 <= i < |out| => out[i].weekday)
  }

  /** `groupby("weekdays").agg(mean)` over the expenses, then
      `round(abs(...), 2)`: one record per weekday with an expense, in
      ascending order of name. */
  function WeekdaySpending(ds: seq<Dated>): seq<DaySpending>
  {
    var spend := Filter(ds, IsSpend);
    var days := SortedKeys(Days(spend));
    seq(|days|, i requires 0 <= i < |days| =>
      GroupCountPositive(spend, days[i]);
      DaySpending(days[i], RoundHalfEven(Abs(GroupSum(spend, days[i])), GroupCount(spend, days[i]))))
  }

  /** The rows `filter_by_date_range` keeps hold date texts that parse,
      or, from a one-block frame, timestamps, so the `pd.to_datetime` of
      the report cannot fail on them. */
  lemma {:induction false} KeptDated(columns: set<Column>, rows: seq<Row>, cache: Option<seq<DateCell>>, oneBlock: bool,
                                     date: Option<string>, now: DateTime, kept: seq<Row>)
    requires Valid(now) && CacheFits(rows, cache)
    requires FilterOutcome(columns, rows, cache, oneBlock, date, ThreeMonths, now) == Ok(kept)
    ensures AllDated(kept)
    ensures !oneBlock ==> forall i :: 0 <= i < |kept| ==> Parses(kept[i])
    ensures oneBlock ==> forall i :: 0 <= i < |kept| ==> kept[i].operationDate.Stamp?
  {
    FilterKeepsWindow(columns, rows, cache, oneBlock, date, ThreeMonths, now, kept);
  }

  /** What `spending_by_weekday` returns: a failed filter hands back its
      error text, on which `.loc` fails; then the amount column is read. */
  function SpendingOutcome(columns: set<Column>, rows: seq<Row>, cache: Option<seq<DateCell>>, oneBlock: bool,
                           date: Option<string>, now: DateTime): (r: Result<seq<DaySpending>>)
    requires Valid(now) && CacheFits(rows, cache)
    ensures r.Err? ==> r.error == NoLocOnText || r.error == MissingColumn(ColumnName(Amount))
    ensures r.Ok? ==> Amount in columns && FilterOutcome(columns, rows, cache, oneBlock, date, ThreeMonths, now).Ok?
  {
    match FilterOutcome(columns, rows, cache, oneBlock, date, ThreeMonths, now)
    case Err(_) => Err(NoLocOnText)
    case Ok(kept) =>
      KeptDated(columns, rows, cache, oneBlock, date, now, kept);
      var ds := WithWeekdays(kept);
      if Amount !in columns then Err(MissingColumn(ColumnName(Amount)))
      else Ok(WeekdaySpending(ds))
  }

  /** `spending_by_weekday(t, date)` at clock reading `now`. The caller's
      frame and its cached date column are left as the filter leaves them. */
  method SpendingByWeekday(t: Table, date: Option<string>, now: DateTime) returns (r: Result<seq<DaySpending>>)
    requires Valid(now) && t.Valid()
    modifies t
    ensures t.Valid() && t.columns == old(t.columns) && t.oneBlock == old(t.oneBlock)
    ensures r == SpendingOutcome(old(t.columns), old(t.rows), old(t.dateCache), old(t.oneBlock), date, now)
    ensures (t.rows, t.dateCache) ==
            StateAfterFilter(old(t.columns), old(t.rows), old(t.dateCache), old(t.oneBlock), date, ThreeMonths, now)
  {
    ghost var columns, rows, cache, oneBlock := t.columns, t.rows, t.dateCache, t.oneBlock;
    var filtered := FilterByDateRange(t, date, ThreeMonths, now);
    if filtered.Err? {
      return Err(NoLocOnText);
    }
    var kept := filtered.value;
    KeptDated(columns, rows, cache, oneBlock, date, now, kept);
    var ds := WithWeekdays(kept);
    if Amount !in t.columns {
      return Err(MissingColumn(ColumnName(Amount)));
    }
    r := Ok(WeekdaySpending(ds));
  }

  // ---------------------------------------------------------------------
  // properties

  /** The records: weekday names in strictly ascending order; a day is
      listed exactly when some expense falls on it (no day is filled in
      with zero). */
  lemma WeekdaysListed(ds: seq<Dated>)
    ensures StrictlyAscending(Weekdays(WeekdaySpending(ds)))
    ensures forall w :: w in Weekdays(WeekdaySpending(ds)) <==>
      exists k :: 0 <= k < |ds| && IsSpend(ds[k]) && ds[k].weekday == w
  {
    var out := WeekdaySpending(ds);
    var spend := Filter(ds, IsSpend);
    var days := SortedKeys(Days(spend));
    assert Weekdays(out) == days;
    forall w ensures w in days <==> exists k :: 0 <= k < |ds| && IsSpend(ds[k]) && ds[k].weekday == w {
      if w in days {
        assert w in Days(spend);
        var j :| 0 <= j < |spend| && Days(spend)[j] == w;
        assert spend[j] in spend;
        var k :| 0 <= k < |ds| && ds[k] == spend[j];
      }
      if exists k :: 0 <= k < |ds| && IsSpend(ds[k]) && ds[k].weekday == w {
        var k :| 0 <= k < |ds| && IsSpend(ds[k]) && ds[k].weekday == w;
        FilterComplete(ds, IsSpend, ds[k]);
        var j :| 0 <= j < |spend| && spend[j] == ds[k];
        assert Days(spend)[j] == w;
      }
    }
  }

  /** Record `e` gives the absolute mean of the expenses of its day,
      rounded half to even: the day has expenses, summing to at most minus
      their count, so the spending is at least one kopeck. */
  ghost predicate MeanOfDay(spend: seq<Dated>, e: DaySpending)
  {
    var n, s := GroupCount(spend, e.weekday), GroupSum(spend, e.weekday);
    && n > 0 && s + n <= 0
    && 2 * Abs(e.spending * n - Abs(s)) <= n
    && (2 * Abs(e.spending * n - Abs(s)) == n ==> e.spending % 2 == 0)
    && e.spending >= 1
  }

  /** Each record's spending is the mean of its day's expenses. */
  lemma WeekdayMeans(ds: seq<Dated>)
    ensures forall i :: 0 <= i < |WeekdaySpending(ds)| ==> MeanOfDay(Filter(ds, IsSpend), WeekdaySpending(ds)[i])
  {
    var out := WeekdaySpending(ds);
    var spend := Filter(ds, IsSpend);
    var days := SortedKeys(Days(spend));
    forall i | 0 <= i < |out| ensures MeanOfDay(spend, out[i]) {
      assert days[i] in days;
      DayMean(spend, days[i]);
      assert out[i] == DaySpending(days[i], RoundHalfEven(Abs(GroupSum(spend, days[i])), GroupCount(spend, days[i])));
    }
  }

  /** A day with an expense has a mean of at least one kopeck. */
  lemma DayMean(spend: seq<Dated>, w: string)
    requires forall d :: d in spend ==> IsSpend(d)
    requires w in Days(spend)
    ensures GroupCount(spend, w) > 0
    ensures GroupSum(spend, w) + GroupCount(spend, w) <= 0
    ensures RoundHalfEven(Abs(GroupSum(spend, w)), GroupCount(spend, w)) >= 1
  {
    GroupCountPositive(spend, w);
    SpendSum(spend, w);
    RoundHalfEvenPositive(Abs(GroupSum(spend, w)), GroupCount(spend, w));
  }

  /** Among expenses only, a day's sum is at most minus its count. */
  lemma {:induction false} SpendSum(ds: seq<Dated>, w: string)
    requires forall d :: d in ds ==> IsSpend(d)
    ensures GroupSum(ds, w) + GroupCount(ds, w) <= 0
  {
    if ds != [] {
      assert ds[0] in ds;
      assert forall d :: d in ds[1..] ==> d in ds;
      SpendSum(ds[1..], w);
    }
  }

  /** Only expenses contribute: removing the other rows changes nothing. */
  lemma ExpensesOnly(ds: seq<Dated>)
    ensures WeekdaySpending(Filter(ds, IsSpend)) == WeekdaySpending(ds)
  {
    FilterIdempotent(ds, IsSpend);
  }

  /** Every listed day is one of the seven day names. */
  lemma DayNamesOnly(kept: seq<Row>)
    requires AllDated(kept)
    ensures forall w :: w in Weekdays(WeekdaySpending(WithWeekdays(kept))) ==> w in WeekdayNames
  {
    var ds := WithWeekdays(kept);
    WeekdaysListed(ds);
    forall w | w in Weekdays(WeekdaySpending(ds)) ensures w in WeekdayNames {
      var k :| 0 <= k < |ds| && IsSpend(ds[k]) && ds[k].weekday == w;
      assert w == WeekdayName(Instant(kept[k].operationDate));
    }
  }

  /** Any failure of the filter becomes the `.loc` error, and a missing
      amount column comes next. */
  lemma ReportFailures(columns: set<Column>, rows: seq<Row>, cache: Option<seq<DateCell>>, oneBlock: bool,
                       date: Option<string>, now: DateTime)
    requires Valid(now) && CacheFits(rows, cache)
    ensures FilterOutcome(columns, rows, cache, oneBlock, date, ThreeMonths, now).Err? ==>
      SpendingOutcome(columns, rows, cache, oneBlock, date, now) == Err(NoLocOnText)
    ensures FilterOutcome(columns, rows, cache, oneBlock, date, ThreeMonths, now).Ok? && Amount !in columns ==>
      SpendingOutcome(columns, rows, cache, oneBlock, date, now) == Err(MissingColumn("Сумма платежа"))
  {
  }

  /** Otherwise the records are those of the rows kept by the filter,
      whose date cells all convert to instants of the window from three
      calendar months before the reference up to the reference, ends
      included. */
  lemma {:induction false} ReportWindow(columns: set<Column>, rows: seq<Row>, cache: Option<seq<DateCell>>, oneBlock: bool,
                                        date: Option<string>, now: DateTime, kept: seq<Row>)
    requires Valid(now) && CacheFits(rows, cache)
    requires FilterOutcome(columns, rows, cache, oneBlock, date, ThreeMonths, now) == Ok(kept)
    requires Amount in columns
    ensures AllDated(kept)
    ensures SpendingOutcome(columns, rows, cache, oneBlock, date, now) == Ok(WeekdaySpending(WithWeekdays(kept)))
    ensures var reference := ParseReference(ReferenceText(date, now)).value;
      forall i :: 0 <= i < |kept| ==>
        && NotAfter(MonthsBack(reference, ThreeMonths), Instant(kept[i].operationDate))
        && NotAfter(Instant(kept[i].operationDate), reference)
  {
    KeptDated(columns, rows, cache, oneBlock, date, now, kept);
    FilterKeepsWindow(columns, rows, cache, oneBlock, date, ThreeMonths, now, kept);
    var reference := ParseReference(ReferenceText(date, now)).value;
    var start := WindowStart(reference, ThreeMonths).value;
    assert start == MonthsBack(reference, ThreeMonths);
    var sel := Filter(Dropna(rows, cache).0, ParsedInWindow(start, reference));
    forall i | 0 <= i < |kept| ensures
        NotAfter(start, Instant(kept[i].operationDate)) && NotAfter(Instant(kept[i].operationDate), reference) {
      assert sel[i] in sel;
      assert Instant(kept[i].operationDate) == CellDate(sel[i].operationDate).value;
    }
  }
}
