/** `filter_by_date_range` (src/utils.py): the rows of a table whose
    operation date lies between a window start and a reference instant.

    The reference is `date` or, when absent, the clock reading `now`
    formatted as "%Y-%m-%d %H:%M:%S". The window starts on the first of the
    reference's month at midnight, or `count_month` calendar months before
    the reference when `count_month > 1`.

    Before anything is parsed, `df["Дата операции"].dropna(inplace=True)`
    runs on the column the frame caches: without NaN its values go back
    into the frame's cells and the cached column comes apart from them;
    with a NaN the shortened column is evicted from the cache. Every row's
    "Дата операции" text is then parsed with "%d.%m.%Y %H:%M:%S" and the
    timestamp is written through `df["Дата операции"]`, row after row: into
    the detached cached column, or into the frame's cells when the cache
    was evicted. The timestamp is first written into the row `iterrows`
    yields, which is a view of the frame's cells when the frame is one
    block of object cells: then the frame's cell receives it as well. The
    first cell that does not parse ends the call with an error. On success
    the window mask is computed from the timestamps of the column and
    applied to the frame: the rows returned hold their date texts, or the
    timestamps in a one-block frame. */
module DateFilter {
  import opened Seqs
  import opened Calendar
  import opened Outcomes
  import opened Strptime
  import opened Ledger

  /** The reference text: `date`, or `now` formatted. */
  function ReferenceText(date: Option<string>, now: DateTime): string
    requires Valid(now)
  {
    if date.Some? then date.value else FormatReference(now)
  }

  /** An absent `date` stands for the clock reading itself. */
  lemma AbsentDateMeansNow(now: DateTime)
    requires Valid(now)
    ensures ParseReference(ReferenceText(None, now)) == Ok(now)
  {
    ParseRender(now, "");
    assert Render(ReferenceFormat, now) + "" == Render(ReferenceFormat, now);
  }

  /** The start of the window ending at `reference`. */
  function WindowStart(reference: DateTime, countMonth: int): (r: Result<DateTime>)
    requires Valid(reference)
    ensures r.Ok? ==> Valid(r.value) && NotAfter(r.value, reference)
    ensures countMonth <= 1 ==> r == Ok(MonthStart(reference))
    ensures countMonth > 1 ==>
      (r.Ok? <==> reference.year * 12 + reference.month - countMonth >= 13)
    ensures countMonth > 1 && r.Ok? ==> r.value == MonthsBack(reference, countMonth) && r.value != reference
  {
    if countMonth > 1 then
      var back := MonthsBack(reference, countMonth);
      if back.year < 1 then Err(BadTime(YearOutOfRange(back.year))) else Ok(back)
    else Ok(MonthStart(reference))
  }

  /** `strptime` applied to a cell: only text can be parsed. */
  function CellDate(c: DateCell): (r: Result<DateTime>)
    ensures r.Ok? ==> c.Text? && Valid(r.value)
  {
    match c
    case Text(s) => ParseOperationDate(s)
    case Blank => Err(NotText("float"))
    case Stamp(_) => Err(NotText("datetime.datetime"))
  }

  predicate Parses(r: Row)
  {
    CellDate(r.operationDate).Ok?
  }

  /** The row with its operation date replaced by the parsed timestamp. */
  function Stamped(r: Row): (s: Row)
    requires Parses(r)
    ensures s.operationDate.Stamp? && Valid(s.operationDate.t)
  {
    r.(operationDate := Stamp(CellDate(r.operationDate).value))
  }

  /** The rows after the loop over them, and the failure that ended it. */
  function StampDates(rows: seq<Row>): (r: (seq<Row>, Option<Failure>))
    ensures |r.0| == |rows|
  {
    if rows == [] then ([], None)
    else match CellDate(rows[0].operationDate)
      case Err(e) => (rows, Some(e))
      case Ok(d) =>
        var rest := StampDates(rows[1..]);
        ([Stamped(rows[0])] + rest.0, rest.1)
  }

  /** The loop runs to the end exactly when every date cell parses, and
      then every row carries its parsed timestamp. */
  lemma {:induction false} StampDatesComplete(rows: seq<Row>)
    ensures StampDates(rows).1.None? <==> forall i :: 0 <= i < |rows| ==> Parses(rows[i])
    ensures StampDates(rows).1.None? ==> forall i :: 0 <= i < |rows| ==> StampDates(rows).0[i] == Stamped(rows[i])
  {
    if rows != [] {
      var rest := rows[1..];
      StampDatesComplete(rest);
      if Parses(rows[0]) {
        var out := StampDates(rows).0;
        assert out == [Stamped(rows[0])] + StampDates(rest).0;
        assert forall i :: 0 < i < |rows| ==> rows[i] == rest[i - 1];
        if StampDates(rows).1.None? {
          forall i | 0 <= i < |rows| ensures out[i] == Stamped(rows[i]) {
            if i > 0 {
              assert out[i] == StampDates(rest).0[i - 1];
            }
          }
        }
      }
    }
  }

  /** One step of the loop: the first row is rewritten, or ends it. */
  lemma {:induction false} StampDatesStep(rows: seq<Row>)
    requires rows != []
    ensures Parses(rows[0]) ==>
      StampDates(rows) == ([Stamped(rows[0])] + StampDates(rows[1..]).0, StampDates(rows[1..]).1)
    ensures !Parses(rows[0]) ==>
      StampDates(rows) == (rows, Some(CellDate(rows[0].operationDate).error))
  {
  }

  /** Row `k` is where the loop stops, with the rows before it rewritten
      and the rest untouched. */
  ghost predicate StopsAt(rows: seq<Row>, k: int)
    requires StampDates(rows).1.Some?
  {
    && 0 <= k < |rows| && FirstFailure(rows, k)
    && StampDates(rows).1.value == CellDate(rows[k].operationDate).error
    && (forall i :: 0 <= i < k ==> StampDates(rows).0[i] == Stamped(rows[i]))
    && StampDates(rows).0[k..] == rows[k..]
  }

  /** When a cell does not parse, the loop stops at the first such row
      with its error: the rows before it are rewritten, it and the rows
      after it are untouched. */
  lemma {:induction false} StampDatesStops(rows: seq<Row>) returns (k: int)
    requires StampDates(rows).1.Some?
    ensures StopsAt(rows, k)
  {
    StampDatesStep(rows);
    if Parses(rows[0]) {
      var j := StampDatesStops(rows[1..]);
      StopsAtCons(rows, j);
      k := j + 1;
    } else {
      k := 0;
      assert FirstFailure(rows, 0);
    }
  }

  /** A stop at `j` in the tail is a stop at `j + 1` once the first row
      has parsed. */
  lemma {:induction false} StopsAtCons(rows: seq<Row>, j: int)
    requires rows != [] && Parses(rows[0]) && StampDates(rows[1..]).1.Some?
    requires StopsAt(rows[1..], j)
    ensures StampDates(rows).1.Some?
    ensures StopsAt(rows, j + 1)
  {
    StampDatesStep(rows);
    var rest := rows[1..];
    var out, tail := StampDates(rows).0, StampDates(rest).0;
    assert out == [Stamped(rows[0])] + tail;
    FirstFailureCons(rows, j);
    assert forall i :: 0 <= i < j ==> rows[1..][i] == rows[i + 1];
    StampedPrefixCons(rows, out, tail, j);
    assert out[j + 1..] == tail[j..];
    assert rows[j + 1..] == rest[j..];
  }

  lemma {:induction false} FirstFailureCons(rows: seq<Row>, j: int)
    requires rows != [] && Parses(rows[0]) && 0 <= j < |rows| - 1
    requires FirstFailure(rows[1..], j)
    ensures FirstFailure(rows, j + 1)
  {
    assert forall i :: 0 < i < j + 1 ==> rows[i] == rows[1..][i - 1];
  }

  lemma {:induction false} StampedPrefixCons(rows: seq<Row>, out: seq<Row>, tail: seq<Row>, j: int)
    requires 0 <= j + 1 < |rows| && FirstFailure(rows, j + 1) && Parses(rows[0])
    requires out == [Stamped(rows[0])] + tail && |tail| == |rows| - 1
    requires forall i :: 0 <= i < j ==> tail[i] == Stamped(rows[i + 1])
    ensures forall i :: 0 <= i < j + 1 ==> out[i] == Stamped(rows[i])
  {
    forall i | 0 < i < j + 1 ensures out[i] == Stamped(rows[i]) {
      assert out[i] == tail[i - 1];
    }
  }

  /** Row `k` is the first whose date cell does not parse. */
  ghost predicate FirstFailure(rows: seq<Row>, k: int)
    requires 0 <= k < |rows|
  {
    !Parses(rows[k]) && forall i :: 0 <= i < k ==> Parses(rows[i])
  }


  /** The loop rewrites a row's date cell at most, and only into that
      row's parsed timestamp. */
  lemma {:induction false} StampDatesCells(rows: seq<Row>)
    ensures forall i :: 0 <= i < |rows| ==>
      StampDates(rows).0[i] == rows[i] || (Parses(rows[i]) && StampDates(rows).0[i] == Stamped(rows[i]))
  {
    if rows != [] && Parses(rows[0]) {
      StampDatesStep(rows);
      var rest := rows[1..];
      StampDatesCells(rest);
      var out := StampDates(rows).0;
      assert out == [Stamped(rows[0])] + StampDates(rest).0;
      forall i | 0 < i < |rows| ensures out[i] == rows[i] || (Parses(rows[i]) && out[i] == Stamped(rows[i])) {
        assert out[i] == StampDates(rest).0[i - 1] && rest[i - 1] == rows[i];
      }
    }
  }

  /** The cells `df["Дата операции"]` reads: the detached cached column
      when there is one, the frame's own cells otherwise. */
  function ColumnCells(rows: seq<Row>, cache: Option<seq<DateCell>>): (cells: seq<DateCell>)
    requires CacheFits(rows, cache)
    ensures |cells| == |rows|
    ensures cache.None? ==> cells == DateColumn(rows)
  {
    if cache.Some? then cache.value else DateColumn(rows)
  }

  /** `df["Дата операции"].dropna(inplace=True)`, as the frame and its
      cached column after it. When no NaN is dropped, the values are
      written into the frame's cells and the column stays cached, apart
      from them; when a NaN is dropped, the shortened column no longer
      matches the frame and is evicted. Either way the frame's date cells
      end up as the column read, and no other cell changes. */
  function Dropna(rows: seq<Row>, cache: Option<seq<DateCell>>): (r: (seq<Row>, Option<seq<DateCell>>))
    requires CacheFits(rows, cache)
    ensures CacheFits(r.0, r.1) && |r.0| == |rows|
    ensures DateColumn(r.0) == ColumnCells(rows, cache)
    ensures r.1.Some? <==> Blank !in ColumnCells(rows, cache)
    ensures r.1.Some? ==> r.1.value == DateColumn(r.0)
    ensures cache.None? ==> r.0 == rows
    ensures forall i :: 0 <= i < |rows| ==> r.0[i] == rows[i].(operationDate := ColumnCells(rows, cache)[i])
  {
    var cells := ColumnCells(rows, cache);
    if Blank in cells then (rows, None)
    else
      var frame := WithDates(rows, cells);
      assert DateColumn(frame) == cells;
      (frame, Some(cells))
  }

  /** The frame and its cached column after the loop over the frame's
      rows, up to the first cell that does not parse. Each parsed timestamp
      is written through `df["Дата операции"]`: into the detached column
      when there is one, into the frame's cells otherwise. It is also
      written into the row `iterrows` yields, which reaches the frame's
      cells when the frame is one block. */
  function AfterLoop(rows: seq<Row>, cache: Option<seq<DateCell>>, oneBlock: bool): (r: (seq<Row>, Option<seq<DateCell>>))
    requires CacheFits(rows, cache)
    requires cache.Some? ==> cache.value == DateColumn(rows)
    ensures CacheFits(r.0, r.1) && |r.0| == |rows|
    ensures cache.Some? ==> r.1 == Some(DateColumn(StampDates(rows).0))
    ensures cache.Some? && !oneBlock ==> r.0 == rows
    ensures cache.None? ==> r.1 == None
    ensures cache.None? || oneBlock ==> r.0 == StampDates(rows).0
  {
    var stamped := StampDates(rows).0;
    StampDatesCells(rows);
    assert forall i :: 0 <= i < |rows| ==> stamped[i].operationDate == rows[i].operationDate || stamped[i].operationDate.Stamp?;
    if cache.None? then (stamped, None)
    else if oneBlock then (stamped, Some(DateColumn(stamped)))
    else (rows, Some(DateColumn(stamped)))
  }

  /** `start <= df["Дата операции"] <= reference` for one cell of the
      column. The mask is only built once the loop has turned every cell
      of the column into a timestamp. */
  predicate StampInWindow(start: DateTime, reference: DateTime, c: DateCell)
  {
    c.Stamp? && NotAfter(start, c.t) && NotAfter(c.t, reference)
  }

  /** `(start <= df["Дата операции"]) & (df["Дата операции"] <= reference)`
      over the cells the column reads, position by position. */
  function WindowMask(cells: seq<DateCell>, start: DateTime, reference: DateTime): (mask: seq<bool>)
    ensures |mask| == |cells|
    ensures forall i :: 0 <= i < |cells| ==> mask[i] == StampInWindow(start, reference, cells[i])
  {
    seq(|cells|, i requires 0 <= i < |cells| => StampInWindow(start, reference, cells[i]))
  }

  /** A row whose date text parses to an instant of the closed window
      from `start` to `reference`. */
  function ParsedInWindow(start: DateTime, reference: DateTime): Row -> bool
  {
    (r: Row) => CellDate(r.operationDate).Ok? &&
                NotAfter(start, CellDate(r.operationDate).value) && NotAfter(CellDate(r.operationDate).value, reference)
  }

  /** What `filter_by_date_range` returns: the mask computed from the
      column the loop wrote to, applied to the frame's rows. */
  function FilterOutcome(columns: set<Column>, rows: seq<Row>, cache: Option<seq<DateCell>>, oneBlock: bool,
                         date: Option<string>, countMonth: int, now: DateTime): (r: Result<seq<Row>>)
    requires Valid(now) && CacheFits(rows, cache)
    ensures r.Ok? ==> OperationDate in columns && |r.value| <= |rows|
    ensures OperationDate !in columns ==> r == Err(MissingColumn(ColumnName(OperationDate)))
  {
    if OperationDate !in columns then Err(MissingColumn(ColumnName(OperationDate)))
    else
      var dropped := Dropna(rows, cache);
      var reference :- ParseReference(ReferenceText(date, now));
      var start :- WindowStart(reference, countMonth);
      var failure := StampDates(dropped.0).1;
      if failure.Some? then Err(failure.value)
      else
        var after := AfterLoop(dropped.0, dropped.1, oneBlock);
        Ok(Select(after.0, WindowMask(ColumnCells(after.0, after.1), start, reference)))
  }

  /** The caller's frame and its cached date column after
      `filter_by_date_range`: untouched without the date column; after
      `dropna` when the reference or the window start fails; after the
      loop otherwise. */
  function StateAfterFilter(columns: set<Column>, rows: seq<Row>, cache: Option<seq<DateCell>>, oneBlock: bool,
                            date: Option<string>, countMonth: int, now: DateTime): (r: (seq<Row>, Option<seq<DateCell>>))
    requires Valid(now) && CacheFits(rows, cache)
    ensures CacheFits(r.0, r.1) && |r.0| == |rows|
  {
    if OperationDate !in columns then (rows, cache)
    else
      var dropped := Dropna(rows, cache);
      var reference := ParseReference(ReferenceText(date, now));
      if reference.Err? || WindowStart(reference.value, countMonth).Err? then dropped
      else AfterLoop(dropped.0, dropped.1, oneBlock)
  }

  /** The outcome and the state once the reference and the window start
      are known. */
  lemma {:induction false} OutcomeAfterWindow(columns: set<Column>, rows: seq<Row>, cache: Option<seq<DateCell>>, oneBlock: bool,
                                              date: Option<string>, countMonth: int, now: DateTime)
    requires Valid(now) && CacheFits(rows, cache) && OperationDate in columns
    requires ParseReference(ReferenceText(date, now)).Ok?
    requires WindowStart(ParseReference(ReferenceText(date, now)).value, countMonth).Ok?
    ensures var reference := ParseReference(ReferenceText(date, now)).value;
            var start := WindowStart(reference, countMonth).value;
            var frame := Dropna(rows, cache).0;
            var after := AfterLoop(frame, Dropna(rows, cache).1, oneBlock);
            && FilterOutcome(columns, rows, cache, oneBlock, date, countMonth, now) ==
                 (if StampDates(frame).1.Some? then Err(StampDates(frame).1.value)
                  else Ok(Select(after.0, WindowMask(ColumnCells(after.0, after.1), start, reference))))
            && StateAfterFilter(columns, rows, cache, oneBlock, date, countMonth, now) == after
  {
  }

  /** Writing one row's timestamp into the column. */
  lemma {:induction false} DateColumnUpdate(s: seq<Row>, i: int, x: Row)
    requires 0 <= i < |s|
    ensures DateColumn(s[i := x]) == DateColumn(s)[i := x.operationDate]
  {
  }

  /** Moving the loop on by one parsed row. */
  lemma {:induction false} StampDatesAdvance(orig: seq<Row>, i: int, done: seq<Row>)
    requires 0 <= i < |orig| && Parses(orig[i])
    requires StampDates(orig).0 == done + StampDates(orig[i..]).0
    ensures StampDates(orig).0 == (done + [Stamped(orig[i])]) + StampDates(orig[i + 1..]).0
    ensures StampDates(orig[i..]).1 == StampDates(orig[i + 1..]).1
  {
    var tail := orig[i..];
    StampDatesStep(tail);
    assert tail[0] == orig[i] && tail[1..] == orig[i + 1..];
    var x, rest := Stamped(orig[i]), StampDates(orig[i + 1..]).0;
    assert StampDates(tail).0 == [x] + rest;
    assert done + ([x] + rest) == (done + [x]) + rest;
  }

  /** Ending the loop at a row that does not parse. */
  lemma {:induction false} StampDatesHalt(orig: seq<Row>, i: int)
    requires 0 <= i < |orig| && !Parses(orig[i])
    ensures StampDates(orig[i..]) == (orig[i..], Some(CellDate(orig[i].operationDate).error))
  {
    StampDatesStep(orig[i..]);
  }

  /** Writing the cell after a prefix. */
  lemma {:induction false} UpdateAfter(done: seq<Row>, tail: seq<Row>, x: Row)
    requires tail != []
    ensures (done + tail)[|done| := x] == (done + [x]) + tail[1..]
  {
  }


  /** Writing the column of a loop's timestamps back into the frame's
      cells gives the rows the loop would have rewritten. */
  lemma {:induction false} RestampFrame(rows: seq<Row>)
    ensures WithDates(rows, DateColumn(StampDates(rows).0)) == StampDates(rows).0
  {
    StampDatesCells(rows);
  }

  /** The loop over `df.iterrows()`, which walks a snapshot of the frame's
      rows: each date cell is parsed and its timestamp written into the
      row and through `df["Дата операции"]`, until a cell does not parse.
      The writes through the column land in the detached cached column
      when there is one and in the frame's cells otherwise; the writes into
      the row reach the frame's cells when the frame is one block. */
  method StampAll(t: Table) returns (failure: Option<Failure>)
    requires t.Valid()
    requires t.dateCache.Some? ==> t.dateCache.value == DateColumn(t.rows)
    modifies t
    ensures t.Valid() && t.columns == old(t.columns) && t.oneBlock == old(t.oneBlock)
    ensures failure == StampDates(old(t.rows)).1
    ensures (t.rows, t.dateCache) == AfterLoop(old(t.rows), old(t.dateCache), old(t.oneBlock))
  {
    var rows := t.rows;
    var column := ColumnCells(t.rows, t.dateCache);
    ghost var done: seq<Row> := [];
    failure := None;
    var i := 0;
    while i < |rows|
      invariant 0 <= i <= |rows| && |done| == i
      invariant column == DateColumn(done + rows[i..])
      invariant StampDates(rows).0 == done + StampDates(rows[i..]).0
      invariant StampDates(rows).1 == StampDates(rows[i..]).1
      invariant failure == None
      invariant t.columns == old(t.columns) && t.rows == rows && t.dateCache == old(t.dateCache)
      invariant t.oneBlock == old(t.oneBlock)
    {
      var cell := CellDate(rows[i].operationDate);
      if cell.Err? {
        StampDatesHalt(rows, i);
        failure := Some(cell.error);
        break;
      }
      StampDatesAdvance(rows, i, done);
      UpdateAfter(done, rows[i..], Stamped(rows[i]));
      assert rows[i..][1..] == rows[i + 1..];
      DateColumnUpdate(done + rows[i..], i, Stamped(rows[i]));
      column := column[i := Stamp(cell.value)];
      done := done + [Stamped(rows[i])];
      i := i + 1;
    }
    assert column == DateColumn(StampDates(rows).0);
    ghost var after := AfterLoop(rows, t.dateCache, t.oneBlock);
    if t.dateCache.Some? {
      t.dateCache := Some(column);
      if t.oneBlock {
        RestampFrame(rows);
        t.rows := WithDates(rows, column);
      }
    } else {
      RestampFrame(rows);
      t.rows := WithDates(rows, column);
    }
    assert (t.rows, t.dateCache) == after;
  }

  /** `filter_by_date_range(t, date, countMonth)` at clock reading `now`. */
  method FilterByDateRange(t: Table, date: Option<string>, countMonth: int, now: DateTime) returns (r: Result<seq<Row>>)
    requires Valid(now) && t.Valid()
    modifies t
    ensures t.Valid() && t.columns == old(t.columns) && t.oneBlock == old(t.oneBlock)
    ensures r == FilterOutcome(old(t.columns), old(t.rows), old(t.dateCache), old(t.oneBlock), date, countMonth, now)
    ensures (t.rows, t.dateCache) ==
            StateAfterFilter(old(t.columns), old(t.rows), old(t.dateCache), old(t.oneBlock), date, countMonth, now)
  {
    if OperationDate !in t.columns {
      return Err(MissingColumn(ColumnName(OperationDate)));
    }
    var text := if date.Some? then date.value else FormatReference(now);
    var dropped := Dropna(t.rows, t.dateCache);
    t.rows, t.dateCache := dropped.0, dropped.1;
    var parsed := ParseReference(text);
    if parsed.Err? {
      return Err(parsed.error);
    }
    var reference := parsed.value;
    var window := WindowStart(reference, countMonth);
    if window.Err? {
      return Err(window.error);
    }
    var start := window.value;
    OutcomeAfterWindow(old(t.columns), old(t.rows), old(t.dateCache), t.oneBlock, date, countMonth, now);
    var failure := StampAll(t);
    if failure.Some? {
      return Err(failure.value);
    }
    r := Ok(Select(t.rows, WindowMask(ColumnCells(t.rows, t.dateCache), start, reference)));
  }

  // ---------------------------------------------------------------------
  // properties

  /** The mask built from the timestamps of a complete loop selects the
      rows whose date text parses into the window. */
  lemma {:induction false} MaskSelectsWindow(frame: seq<Row>, start: DateTime, reference: DateTime)
    requires forall i :: 0 <= i < |frame| ==> Parses(frame[i])
    ensures Select(frame, WindowMask(DateColumn(StampDates(frame).0), start, reference))
            == Filter(frame, ParsedInWindow(start, reference))
  {
    StampDatesComplete(frame);
    var mask := WindowMask(DateColumn(StampDates(frame).0), start, reference);
    forall i | 0 <= i < |frame| ensures mask[i] == ParsedInWindow(start, reference)(frame[i]) {
      assert StampDates(frame).0[i] == Stamped(frame[i]);
    }
    SelectByCondition(frame, mask, ParsedInWindow(start, reference));
  }

  /** Selecting from the rows of a complete loop selects the same rows
      as from the frame, each with its timestamp. */
  lemma {:induction false} SelectStamps(frame: seq<Row>, keep: seq<bool>)
    requires |keep| == |frame|
    requires forall i :: 0 <= i < |frame| ==> Parses(frame[i])
    ensures Select(StampDates(frame).0, keep) == StampDates(Select(frame, keep)).0
  {
    if frame != [] {
      var rest, more := frame[1..], keep[1..];
      forall i | 0 <= i < |rest| ensures Parses(rest[i]) {
        assert rest[i] == frame[i + 1];
      }
      SelectStamps(rest, more);
      StampDatesStep(frame);
      var out := StampDates(frame).0;
      assert out == [Stamped(frame[0])] + StampDates(rest).0;
      assert out[0] == Stamped(frame[0]) && out[1..] == StampDates(rest).0;
      var sel := Select(rest, more);
      assert Select(out, keep) == (if keep[0] then [out[0]] else []) + Select(StampDates(rest).0, more);
      if keep[0] {
        var picked := [frame[0]] + sel;
        assert Select(frame, keep) == picked;
        StampDatesStep(picked);
        assert picked[0] == frame[0] && picked[1..] == sel;
      } else {
        assert Select(frame, keep) == sel;
      }
    }
  }

  /** With the date column present, the reference and the window start
      computed and every cell of the column parsing, the call succeeds.
      The cached column holds each row's timestamp. The frame keeps its
      rows, date texts included, unless it is one block, whose cells then
      hold the timestamps too. The rows returned are the frame's rows whose
      date text parses into the window, with their timestamps in a
      one-block frame. */
  lemma {:induction false} FilterSucceeds(columns: set<Column>, rows: seq<Row>, cache: Option<seq<DateCell>>, oneBlock: bool,
                                          date: Option<string>, countMonth: int, now: DateTime)
    requires Valid(now) && CacheFits(rows, cache) && OperationDate in columns
    requires ParseReference(ReferenceText(date, now)).Ok?
    requires WindowStart(ParseReference(ReferenceText(date, now)).value, countMonth).Ok?
    requires forall i :: 0 <= i < |rows| ==> CellDate(ColumnCells(rows, cache)[i]).Ok?
    ensures var reference := ParseReference(ReferenceText(date, now)).value;
            var start := WindowStart(reference, countMonth).value;
            var frame := Dropna(rows, cache).0;
            var sel := Filter(frame, ParsedInWindow(start, reference));
            && FilterOutcome(columns, rows, cache, oneBlock, date, countMonth, now) ==
                 Ok(if oneBlock then StampDates(sel).0 else sel)
            && StateAfterFilter(columns, rows, cache, oneBlock, date, countMonth, now) ==
                 (if oneBlock then StampDates(frame).0 else frame, Some(DateColumn(StampDates(frame).0)))
            && (forall i :: 0 <= i < |frame| ==> StampDates(frame).0[i] == Stamped(frame[i]))
            && (forall i :: 0 <= i < |sel| ==> Parses(sel[i]) && StampDates(sel).0[i] == Stamped(sel[i]))
  {
    var reference := ParseReference(ReferenceText(date, now)).value;
    var start := WindowStart(reference, countMonth).value;
    var cells := ColumnCells(rows, cache);
    var frame := Dropna(rows, cache).0;
    OutcomeAfterWindow(columns, rows, cache, oneBlock, date, countMonth, now);
    forall i | 0 <= i < |frame| ensures Parses(frame[i]) && cells[i] != Blank {
      assert frame[i].operationDate == DateColumn(frame)[i] == cells[i];
    }
    assert Blank !in cells;
    StampDatesComplete(frame);
    MaskSelectsWindow(frame, start, reference);
    SelectStamps(frame, WindowMask(DateColumn(StampDates(frame).0), start, reference));
    var sel := Filter(frame, ParsedInWindow(start, reference));
    forall i | 0 <= i < |sel| ensures Parses(sel[i]) {
      assert sel[i] in sel;
    }
    StampDatesComplete(sel);
  }

  /** The call fails exactly when the date column is missing, the
      reference does not parse, the window start falls before year 1, or
      some cell of the column `df["Дата операции"]` reads does not parse.
      A missing column is reported before anything else, and then nothing
      changes. */
  lemma {:induction false} FilterFailures(columns: set<Column>, rows: seq<Row>, cache: Option<seq<DateCell>>, oneBlock: bool,
                                          date: Option<string>, countMonth: int, now: DateTime)
    requires Valid(now) && CacheFits(rows, cache)
    ensures FilterOutcome(columns, rows, cache, oneBlock, date, countMonth, now).Ok? <==>
      && OperationDate in columns
      && ParseReference(ReferenceText(date, now)).Ok?
      && WindowStart(ParseReference(ReferenceText(date, now)).value, countMonth).Ok?
      && forall i :: 0 <= i < |rows| ==> CellDate(ColumnCells(rows, cache)[i]).Ok?
    ensures OperationDate !in columns ==>
      && FilterOutcome(columns, rows, cache, oneBlock, date, countMonth, now) == Err(MissingColumn("Дата операции"))
      && Message(UtilsPrefix, MissingColumn("Дата операции")) == "Произошла ошибка 'Дата операции'"
      && StateAfterFilter(columns, rows, cache, oneBlock, date, countMonth, now) == (rows, cache)
  {
    MissingDateMessage();
    if && OperationDate in columns
       && ParseReference(ReferenceText(date, now)).Ok?
       && WindowStart(ParseReference(ReferenceText(date, now)).value, countMonth).Ok?
    {
      OutcomeAfterWindow(columns, rows, cache, oneBlock, date, countMonth, now);
      var frame := Dropna(rows, cache).0;
      StampDatesComplete(frame);
      assert forall i :: 0 <= i < |rows| ==> frame[i].operationDate == ColumnCells(rows, cache)[i];
    }
  }
  /** The text returned for a table without the date column. */
  lemma MissingDateMessage()
    ensures Message(UtilsPrefix, MissingColumn("Дата операции")) == "Произошла ошибка 'Дата операции'"
  {
  }


  /** On success, the rows returned are the frame's rows whose date text
      parses into the closed window, each as often as it occurs, in
      their original order; in a one-block frame each carries its
      timestamp instead of its text. A frame without a detached cached
      column is the caller's table as it was. */
  lemma {:induction false} FilterKeepsWindow(columns: set<Column>, rows: seq<Row>, cache: Option<seq<DateCell>>, oneBlock: bool,
                                             date: Option<string>, countMonth: int, now: DateTime, kept: seq<Row>)
    requires Valid(now) && CacheFits(rows, cache)
    requires FilterOutcome(columns, rows, cache, oneBlock, date, countMonth, now) == Ok(kept)
    ensures OperationDate in columns
    ensures ParseReference(ReferenceText(date, now)).Ok?
    ensures WindowStart(ParseReference(ReferenceText(date, now)).value, countMonth).Ok?
    ensures forall i :: 0 <= i < |rows| ==> CellDate(ColumnCells(rows, cache)[i]).Ok?
    ensures cache.None? ==> Dropna(rows, cache).0 == rows
    ensures var reference := ParseReference(ReferenceText(date, now)).value;
            var start := WindowStart(reference, countMonth).value;
            var frame := Dropna(rows, cache).0;
            var sel := Filter(frame, ParsedInWindow(start, reference));
            && kept == (if oneBlock then StampDates(sel).0 else sel)
            && (forall i :: 0 <= i < |sel| ==> Parses(sel[i]) && (oneBlock ==> kept[i] == Stamped(sel[i])))
            && (forall x :: x in sel <==> x in frame && ParsedInWindow(start, reference)(x))
            && (forall x :: multiset(sel)[x] ==
                  if ParsedInWindow(start, reference)(x) then multiset(frame)[x] else 0)
            && IsSubsequence(sel, frame)
  {
    FilterFailures(columns, rows, cache, oneBlock, date, countMonth, now);
    FilterSucceeds(columns, rows, cache, oneBlock, date, countMonth, now);
    var reference := ParseReference(ReferenceText(date, now)).value;
    var start := WindowStart(reference, countMonth).value;
    var frame := Dropna(rows, cache).0;
    var p := ParsedInWindow(start, reference);
    FilterIsSubsequence(frame, p);
    forall x ensures multiset(Filter(frame, p))[x] == if p(x) then multiset(frame)[x] else 0 {
      FilterCount(frame, p, x);
    }
    forall x ensures x in Filter(frame, p) <==> x in frame && p(x) {
      FilterMembership(frame, p, x);
    }
  }

  /** A successful call leaves the cached column holding each row's
      parsed timestamp. The frame keeps the rows `dropna` left (for a frame
      without a detached cached column, exactly the caller's rows), unless
      it is one block, whose cells then hold the same timestamps. */
  lemma {:induction false} FilterCachesTimestamps(columns: set<Column>, rows: seq<Row>, cache: Option<seq<DateCell>>, oneBlock: bool,
                                                  date: Option<string>, countMonth: int, now: DateTime)
    requires Valid(now) && CacheFits(rows, cache)
    requires FilterOutcome(columns, rows, cache, oneBlock, date, countMonth, now).Ok?
    ensures forall i :: 0 <= i < |rows| ==> CellDate(ColumnCells(rows, cache)[i]).Ok?
    ensures var after := StateAfterFilter(columns, rows, cache, oneBlock, date, countMonth, now);
            && after.1.Some? && |after.1.value| == |rows|
            && (forall i :: 0 <= i < |rows| ==> after.1.value[i] == Stamp(CellDate(ColumnCells(rows, cache)[i]).value))
            && (!oneBlock ==> after.0 == Dropna(rows, cache).0)
            && (!oneBlock && cache.None? ==> after.0 == rows)
            && (oneBlock ==> after.0 == WithDates(rows, after.1.value))
  {
    FilterFailures(columns, rows, cache, oneBlock, date, countMonth, now);
    FilterSucceeds(columns, rows, cache, oneBlock, date, countMonth, now);
    var frame := Dropna(rows, cache).0;
    var stamped := StampDates(frame).0;
    forall i | 0 <= i < |rows| ensures DateColumn(stamped)[i] == Stamp(CellDate(ColumnCells(rows, cache)[i]).value) {
      assert stamped[i] == Stamped(frame[i]);
      assert frame[i].operationDate == ColumnCells(rows, cache)[i];
    }
    if oneBlock {
      var cells := DateColumn(stamped);
      forall i | 0 <= i < |rows| ensures stamped[i] == WithDates(rows, cells)[i] {
        assert stamped[i] == Stamped(frame[i]);
      }
    }
  }

  /** A call whose loop stops at a cell that does not parse: with a NaN
      in the column, the cache was evicted and the rows before that cell
      hold their timestamps in the frame itself; without one, the cached
      column holds those timestamps, and the frame keeps its cells unless
      it is one block, whose cells hold them too. */
  lemma {:induction false} FailedLoopState(columns: set<Column>, rows: seq<Row>, cache: Option<seq<DateCell>>, oneBlock: bool,
                                           date: Option<string>, countMonth: int, now: DateTime)
    requires Valid(now) && CacheFits(rows, cache) && OperationDate in columns
    requires ParseReference(ReferenceText(date, now)).Ok?
    requires WindowStart(ParseReference(ReferenceText(date, now)).value, countMonth).Ok?
    requires FilterOutcome(columns, rows, cache, oneBlock, date, countMonth, now).Err?
    ensures StampDates(Dropna(rows, cache).0).1.Some?
    ensures Blank in ColumnCells(rows, cache) ==>
      cache == None && StateAfterFilter(columns, rows, cache, oneBlock, date, countMonth, now) == (StampDates(rows).0, None)
    ensures Blank !in ColumnCells(rows, cache) ==>
      var frame := Dropna(rows, cache).0;
      StateAfterFilter(columns, rows, cache, oneBlock, date, countMonth, now) ==
        (if oneBlock then StampDates(frame).0 else frame, Some(DateColumn(StampDates(frame).0)))
  {
    OutcomeAfterWindow(columns, rows, cache, oneBlock, date, countMonth, now);
  }

  /** A window holding no row gives an empty table, not an error. */
  lemma {:induction false} EmptyWindow(columns: set<Column>, rows: seq<Row>, cache: Option<seq<DateCell>>, oneBlock: bool,
                                       date: Option<string>, countMonth: int, now: DateTime)
    requires Valid(now) && CacheFits(rows, cache) && OperationDate in columns
    requires ParseReference(ReferenceText(date, now)).Ok?
    requires WindowStart(ParseReference(ReferenceText(date, now)).value, countMonth).Ok?
    requires var reference := ParseReference(ReferenceText(date, now)).value;
             var start := WindowStart(reference, countMonth).value;
             forall i :: 0 <= i < |rows| ==>
               var c := ColumnCells(rows, cache)[i];
               CellDate(c).Ok? && !(NotAfter(start, CellDate(c).value) && NotAfter(CellDate(c).value, reference))
    ensures FilterOutcome(columns, rows, cache, oneBlock, date, countMonth, now) == Ok([])
  {
    var reference := ParseReference(ReferenceText(date, now)).value;
    var start := WindowStart(reference, countMonth).value;
    var frame := Dropna(rows, cache).0;
    forall x | x in frame ensures !ParsedInWindow(start, reference)(x) {
      var i :| 0 <= i < |frame| && frame[i] == x;
      assert x.operationDate == ColumnCells(rows, cache)[i];
    }
    FilterNone(frame, ParsedInWindow(start, reference));
    assert StampDates(Filter(frame, ParsedInWindow(start, reference))).0 == [];
    FilterSucceeds(columns, rows, cache, oneBlock, date, countMonth, now);
  }

  /** Without `date` the window ends at the clock reading: the call keeps
      the frame's rows dated from the start of the current month (or
      `countMonth` months back) up to `now`, each as often as it occurs,
      in order, with their timestamps in a one-block frame. */
  lemma {:induction false} FilterWithoutDate(columns: set<Column>, rows: seq<Row>, cache: Option<seq<DateCell>>, oneBlock: bool,
                                             countMonth: int, now: DateTime, kept: seq<Row>)
    requires Valid(now) && CacheFits(rows, cache)
    requires FilterOutcome(columns, rows, cache, oneBlock, None, countMonth, now) == Ok(kept)
    ensures WindowStart(now, countMonth).Ok?
    ensures forall i :: 0 <= i < |rows| ==> CellDate(ColumnCells(rows, cache)[i]).Ok?
    ensures var start := WindowStart(now, countMonth).value;
            var frame := Dropna(rows, cache).0;
            var sel := Filter(frame, ParsedInWindow(start, now));
            && kept == (if oneBlock then StampDates(sel).0 else sel)
            && (forall x :: x in sel <==> x in frame && ParsedInWindow(start, now)(x))
            && (forall x :: multiset(sel)[x] == if ParsedInWindow(start, now)(x) then multiset(frame)[x] else 0)
  {
    AbsentDateMeansNow(now);
    assert ParseReference(ReferenceText(None, now)).value == now;
    FilterKeepsWindow(columns, rows, cache, oneBlock, None, countMonth, now, kept);
  }

  /** `dropna` on a cached column of timestamps of a complete loop writes
      them into the frame's cells, whether or not these already hold them. */
  lemma {:induction false} DropnaStamps(frame: seq<Row>, oneBlock: bool)
    requires forall i :: 0 <= i < |frame| ==> Parses(frame[i])
    ensures var stamps := Some(DateColumn(StampDates(frame).0));
            var cells := if oneBlock then StampDates(frame).0 else frame;
            CacheFits(cells, stamps) && Dropna(cells, stamps) == (StampDates(frame).0, stamps)
  {
    StampDatesComplete(frame);
    var stamped := StampDates(frame).0;
    forall i | 0 <= i < |frame| ensures DateColumn(stamped)[i].Stamp? {
      assert stamped[i] == Stamped(frame[i]);
    }
    assert Blank !in DateColumn(stamped);
    RestampFrame(frame);
    assert WithDates(stamped, DateColumn(stamped)) == stamped;
  }

  /** A call on a frame whose column has no NaN and whose first cell does
      not parse: it fails on that cell, once the reference and the window
      start are known, and leaves the frame's cells as `dropna` wrote them. */
  lemma {:induction false} FirstCellFails(columns: set<Column>, rows: seq<Row>, cache: Option<seq<DateCell>>, oneBlock: bool,
                                          date: Option<string>, countMonth: int, now: DateTime)
    requires Valid(now) && CacheFits(rows, cache) && rows != []
    requires Blank !in ColumnCells(rows, cache) && CellDate(ColumnCells(rows, cache)[0]).Err?
    ensures FilterOutcome(columns, rows, cache, oneBlock, date, countMonth, now).Err?
    ensures OperationDate in columns && ParseReference(ReferenceText(date, now)).Ok? &&
            WindowStart(ParseReference(ReferenceText(date, now)).value, countMonth).Ok? ==>
              FilterOutcome(columns, rows, cache, oneBlock, date, countMonth, now) == Err(CellDate(ColumnCells(rows, cache)[0]).error)
    ensures OperationDate in columns ==>
              StateAfterFilter(columns, rows, cache, oneBlock, date, countMonth, now).0 == Dropna(rows, cache).0
  {
    var frame := Dropna(rows, cache).0;
    assert frame[0].operationDate == ColumnCells(rows, cache)[0];
    if && OperationDate in columns
       && ParseReference(ReferenceText(date, now)).Ok?
       && WindowStart(ParseReference(ReferenceText(date, now)).value, countMonth).Ok?
    {
      OutcomeAfterWindow(columns, rows, cache, oneBlock, date, countMonth, now);
      StampDatesStep(frame);
    }
  }

  /** A call on a frame whose cached column holds the timestamps of a
      complete loop over its rows: the frame's cells hold the texts, or
      the timestamps too in a one-block frame. */
  lemma {:induction false} CallOnStamps(columns: set<Column>, frame: seq<Row>, oneBlock: bool,
                                        date: Option<string>, countMonth: int, now: DateTime)
    requires Valid(now) && frame != []
    requires forall i :: 0 <= i < |frame| ==> Parses(frame[i])
    ensures var stamps := Some(DateColumn(StampDates(frame).0));
            var cells := if oneBlock then StampDates(frame).0 else frame;
            && CacheFits(cells, stamps)
            && FilterOutcome(columns, cells, stamps, oneBlock, date, countMonth, now).Err?
            && (OperationDate in columns && ParseReference(ReferenceText(date, now)).Ok? &&
                WindowStart(ParseReference(ReferenceText(date, now)).value, countMonth).Ok? ==>
                  FilterOutcome(columns, cells, stamps, oneBlock, date, countMonth, now) == Err(NotText("datetime.datetime")))
            && (OperationDate in columns ==>
                  StateAfterFilter(columns, cells, stamps, oneBlock, date, countMonth, now).0 == StampDates(frame).0)
  {
    var stamped := StampDates(frame).0;
    var cells := if oneBlock then stamped else frame;
    DropnaStamps(frame, oneBlock);
    StampDatesComplete(frame);
    assert stamped[0] == Stamped(frame[0]);
    assert DateColumn(stamped)[0].Stamp?;
    FirstCellFails(columns, cells, Some(DateColumn(stamped)), oneBlock, date, countMonth, now);
  }

  /** After a successful call the cached column holds timestamps, so a
      second call on the same non-empty frame fails: its `dropna` writes
      those timestamps into the frame's cells, and `strptime` refuses the
      first one. From then on the frame's rows carry the timestamps,
      whatever the frame's layout. */
  lemma {:induction false} SecondFilterFails(columns: set<Column>, rows: seq<Row>, cache: Option<seq<DateCell>>, oneBlock: bool,
                                             date: Option<string>, countMonth: int, now: DateTime,
                                             date2: Option<string>, countMonth2: int, now2: DateTime)
    requires Valid(now) && Valid(now2) && CacheFits(rows, cache) && rows != []
    requires FilterOutcome(columns, rows, cache, oneBlock, date, countMonth, now).Ok?
    ensures var s := StateAfterFilter(columns, rows, cache, oneBlock, date, countMonth, now);
            FilterOutcome(columns, s.0, s.1, oneBlock, date2, countMonth2, now2).Err?
    ensures var s := StateAfterFilter(columns, rows, cache, oneBlock, date, countMonth, now);
            ParseReference(ReferenceText(date2, now2)).Ok? &&
            WindowStart(ParseReference(ReferenceText(date2, now2)).value, countMonth2).Ok? ==>
              FilterOutcome(columns, s.0, s.1, oneBlock, date2, countMonth2, now2) == Err(NotText("datetime.datetime"))
    ensures var s := StateAfterFilter(columns, rows, cache, oneBlock, date, countMonth, now);
            var frame := Dropna(rows, cache).0;
            forall i :: 0 <= i < |rows| ==>
              Parses(frame[i]) && StateAfterFilter(columns, s.0, s.1, oneBlock, date2, countMonth2, now2).0[i] == Stamped(frame[i])
  {
    FilterFailures(columns, rows, cache, oneBlock, date, countMonth, now);
    FilterSucceeds(columns, rows, cache, oneBlock, date, countMonth, now);
    var frame := Dropna(rows, cache).0;
    assert forall i :: 0 <= i < |frame| ==> frame[i].operationDate == ColumnCells(rows, cache)[i];
    CallOnStamps(columns, frame, oneBlock, date2, countMonth2, now2);
  }
}
