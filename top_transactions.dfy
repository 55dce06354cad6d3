/** `get_top_transactions_by_amount` (src/utils.py): the empty cells of four
    columns are filled in the caller's frame, the frame is re-sorted in
    place by the absolute amount, largest first, and the first five rows
    are returned as records. */
module TopTransactions {
  import opened Seqs
  import opened Money
  import opened Calendar
  import opened Outcomes
  import opened Ledger

  /** One record of the result; the amount keeps its sign. */
  datatype TopEntry = TopEntry(date: string, amount: int, category: string, description: string)

  /** The fill values of the empty cells. */
  const NoCategory: string := "Нет категории"
  const NoDescription: string := "Нет описания"
  const UnknownDate: string := "Неизвестна"

  /** The columns filled, in the order the source fills them. */
  const FillOrder: seq<Column> := [Category, Description, PaymentDate, Amount]

  /** How many rows the records are taken from (`df.head(5)`). */
  const TopCount: nat := 5

  /** The value of a cell, or `d` when it is empty (`fillna(d)`). */
  function OrElse<T>(o: Option<T>, d: T): (v: T)
    ensures o.Some? ==> v == o.value
    ensures o.None? ==> v == d
  {
    if o.Some? then o.value else d
  }

  /** The cell of column `c` of `r` after `fillna`; the date and card
      columns are never filled. */
  function FillCell(r: Row, c: Column): Row
  {
    match c
    case Category => r.(category := Some(OrElse(r.category, NoCategory)))
    case Description => r.(description := Some(OrElse(r.description, NoDescription)))
    case PaymentDate => r.(paymentDate := Some(OrElse(r.paymentDate, UnknownDate)))
    case Amount => r.(amount := Some(OrElse(r.amount, 0)))
    case _ => r
  }

  /** `df[c] = df[c].fillna(...)`. */
  function FillColumn(rows: seq<Row>, c: Column): (r: seq<Row>)
    ensures |r| == |rows|
  {
    seq(|rows|, i requires 0 <= i < |rows| => FillCell(rows[i], c))
  }

  /** The fills of `fills` in order; the first column the frame lacks
      raises `KeyError`, with the earlier fills already written. */
  function Prepare(columns: set<Column>, rows: seq<Row>, fills: seq<Column>): (r: (seq<Row>, Option<Failure>))
    ensures |r.0| == |rows|
    decreases fills
  {
    if fills == [] then (rows, None)
    else if fills[0] !in columns then (rows, Some(MissingColumn(ColumnName(fills[0]))))
    else Prepare(columns, FillColumn(rows, fills[0]), fills[1..])
  }

  /** The sort key: `abs` of the amount (an empty amount is 0 by then). */
  function Magnitude(r: Row): nat
  {
    if r.amount.Some? then Abs(r.amount.value) else 0
  }

  /** Places `x` before the first row of `s` that is not larger than it. */
  function Insert(x: Row, s: seq<Row>): (r: seq<Row>)
    ensures |r| == |s| + 1
  {
    if s == [] || Magnitude(s[0]) <= Magnitude(x) then [x] + s
    else [s[0]] + Insert(x, s[1..])
  }

  /** `sort_values(key=abs, ascending=False)`: largest magnitude first,
      rows of equal magnitude in their original order. */
  function SortByMagnitude(s: seq<Row>): (r: seq<Row>)
    ensures |r| == |s|
  {
    if s == [] then [] else Insert(s[0], SortByMagnitude(s[1..]))
  }

  /** The record built from a row of the filled frame. */
  function Entry(r: Row): TopEntry
  {
    TopEntry(OrElse(r.paymentDate, UnknownDate), OrElse(r.amount, 0),
             OrElse(r.category, NoCategory), OrElse(r.description, NoDescription))
  }

  /** The records of the first five rows. */
  function Head(rows: seq<Row>): (r: seq<TopEntry>)
    ensures |r| == Min(TopCount, |rows|)
  {
    seq(Min(TopCount, |rows|), i requires 0 <= i < Min(TopCount, |rows|) => Entry(rows[i]))
  }

  /** What `get_top_transactions_by_amount` returns. */
  function TopOutcome(columns: set<Column>, rows: seq<Row>): (r: Result<seq<TopEntry>>)
    ensures r.Ok? ==> |r.value| == Min(TopCount, |rows|)
  {
    var p := Prepare(columns, rows, FillOrder);
    if p.1.Some? then Err(p.1.value) else Ok(Head(SortByMagnitude(p.0)))
  }

  /** The caller's rows afterwards: filled as far as the fills got, and
      re-sorted when they all succeeded. */
  function RowsAfterTop(columns: set<Column>, rows: seq<Row>): seq<Row>
  {
    var p := Prepare(columns, rows, FillOrder);
    if p.1.Some? then p.0 else SortByMagnitude(p.0)
  }

  /** `Prepare` over the four fills, one step at a time. */
  lemma PrepareInOrder(columns: set<Column>, rows: seq<Row>)
    ensures var r1 := FillColumn(rows, Category);
      var r2 := FillColumn(r1, Description);
      var r3 := FillColumn(r2, PaymentDate);
      Prepare(columns, rows, FillOrder) ==
        if Category !in columns then (rows, Some(MissingColumn(ColumnName(Category))))
        else if Description !in columns then (r1, Some(MissingColumn(ColumnName(Description))))
        else if PaymentDate !in columns then (r2, Some(MissingColumn(ColumnName(PaymentDate))))
        else if Amount !in columns then (r3, Some(MissingColumn(ColumnName(Amount))))
        else (FillColumn(r3, Amount), None)
  {
    var r1 := FillColumn(rows, Category);
    var r2 := FillColumn(r1, Description);
    var r3 := FillColumn(r2, PaymentDate);
    var f1, f2, f3 := [Description, PaymentDate, Amount], [PaymentDate, Amount], [Amount];
    assert FillOrder[0] == Category && FillOrder[1..] == f1;
    assert f1[0] == Description && f1[1..] == f2;
    assert f2[0] == PaymentDate && f2[1..] == f3;
    assert f3[0] == Amount && f3[1..] == [];
    if Category in columns {
      assert Prepare(columns, rows, FillOrder) == Prepare(columns, r1, f1);
      if Description in columns {
        assert Prepare(columns, r1, f1) == Prepare(columns, r2, f2);
        if PaymentDate in columns {
          assert Prepare(columns, r2, f2) == Prepare(columns, r3, f3);
          if Amount in columns {
            assert Prepare(columns, r3, f3) == Prepare(columns, FillColumn(r3, Amount), []);
          }
        }
      }
    }
  }

  /** `get_top_transactions_by_amount(t)`. Assigning the category column
      clears the frame's item cache and moves the column into a block of
      its own, so once that column exists a detached cached date column is
      dropped and the frame is no longer one block. */
  method GetTopTransactions(t: Table) returns (r: Result<seq<TopEntry>>)
    requires t.Valid()
    modifies t
    ensures t.Valid() && t.columns == old(t.columns)
    ensures r == TopOutcome(old(t.columns), old(t.rows))
    ensures t.rows == RowsAfterTop(old(t.columns), old(t.rows))
    ensures t.dateCache == if Category in old(t.columns) then None else old(t.dateCache)
    ensures t.oneBlock == if Category in old(t.columns) then false else old(t.oneBlock)
  {
    PrepareInOrder(t.columns, t.rows);
    if Category !in t.columns {
      return Err(MissingColumn(ColumnName(Category)));
    }
    t.rows, t.dateCache, t.oneBlock := FillColumn(t.rows, Category), None, false;
    if Description !in t.columns {
      return Err(MissingColumn(ColumnName(Description)));
    }
    t.rows := FillColumn(t.rows, Description);
    if PaymentDate !in t.columns {
      return Err(MissingColumn(ColumnName(PaymentDate)));
    }
    t.rows := FillColumn(t.rows, PaymentDate);
    if Amount !in t.columns {
      return Err(MissingColumn(ColumnName(Amount)));
    }
    t.rows := FillColumn(t.rows, Amount);
    t.rows := SortByMagnitude(t.rows);

    var rows := t.rows;
    var n := Min(TopCount, |rows|);
    var top: seq<TopEntry> := [];
    var i := 0;
    while i < n
      invariant 0 <= i <= n
      invariant |top| == i
      invariant forall k :: 0 <= k < i ==> top[k] == Entry(rows[k])
    {
      top := top + [Entry(rows[i])];
      i := i + 1;
    }
    assert top == Head(rows);
    r := Ok(top);
  }

  // ---------------------------------------------------------------------
  // the sort

  /** Largest magnitude first. */
  ghost predicate ByMagnitude(s: seq<Row>)
  {
    forall i, j :: 0 <= i < j < |s| ==> Magnitude(s[i]) >= Magnitude(s[j])
  }

  /** The rows whose magnitude is `m`. */
  function HasMagnitude(m: nat): Row -> bool
  {
    r => Magnitude(r) == m
  }

  lemma {:induction false} InsertPermutes(x: Row, s: seq<Row>)
    ensures multiset(Insert(x, s)) == multiset(s) + multiset{x}
  {
    if s != [] && Magnitude(s[0]) > Magnitude(x) {
      InsertPermutes(x, s[1..]);
      assert s == [s[0]] + s[1..];
    }
  }

  /** The sort rearranges the rows and loses none. */
  lemma {:induction false} SortPermutes(s: seq<Row>)
    ensures multiset(SortByMagnitude(s)) == multiset(s)
  {
    if s != [] {
      SortPermutes(s[1..]);
      InsertPermutes(s[0], SortByMagnitude(s[1..]));
      assert s == [s[0]] + s[1..];
    }
  }

  lemma {:induction false} InsertSorted(x: Row, s: seq<Row>)
    requires ByMagnitude(s)
    ensures ByMagnitude(Insert(x, s))
  {
    if s != [] && Magnitude(s[0]) > Magnitude(x) {
      var t := s[1..];
      InsertSorted(x, t);
      InsertPermutes(x, t);
      var r := Insert(x, t);
      forall k | 0 <= k < |r| ensures Magnitude(r[k]) <= Magnitude(s[0]) {
        assert r[k] in multiset(t) + multiset{x};
        if r[k] != x {
          assert r[k] in t;
        }
      }
    }
  }

  /** The sorted rows are largest magnitude first. */
  lemma {:induction false} SortSorted(s: seq<Row>)
    ensures ByMagnitude(SortByMagnitude(s))
  {
    if s != [] {
      SortSorted(s[1..]);
      InsertSorted(s[0], SortByMagnitude(s[1..]));
    }
  }

  lemma {:induction false} InsertStable(x: Row, s: seq<Row>, m: nat)
    ensures Filter(Insert(x, s), HasMagnitude(m)) ==
      (if Magnitude(x) == m then [x] else []) + Filter(s, HasMagnitude(m))
  {
    var p := HasMagnitude(m);
    var own := if p(x) then [x] else [];
    if s == [] || Magnitude(s[0]) <= Magnitude(x) {
      var r := [x] + s;
      assert r[0] == x && r[1..] == s;
      assert Filter(r, p) == own + Filter(s, p);
    } else {
      var rest := Insert(x, s[1..]);
      InsertStable(x, s[1..], m);
      var r := [s[0]] + rest;
      assert r[0] == s[0] && r[1..] == rest;
      var head := if p(s[0]) then [s[0]] else [];
      assert Filter(r, p) == head + (own + Filter(s[1..], p));
      assert Filter(s, p) == head + Filter(s[1..], p);
      if p(x) {
        assert head == [];
      } else {
        assert own == [];
      }
    }
  }

  /** Rows of equal magnitude keep their original order. */
  lemma {:induction false} SortStable(s: seq<Row>, m: nat)
    ensures Filter(SortByMagnitude(s), HasMagnitude(m)) == Filter(s, HasMagnitude(m))
  {
    if s != [] {
      SortStable(s[1..], m);
      InsertStable(s[0], SortByMagnitude(s[1..]), m);
    }
  }

  // ---------------------------------------------------------------------
  // properties

  /** The four fills write the fill value into each empty cell of their
      column and leave every other cell as it was. */
  lemma FillsAll(columns: set<Column>, rows: seq<Row>)
    requires Category in columns && Description in columns && PaymentDate in columns && Amount in columns
    ensures var p := Prepare(columns, rows, FillOrder);
      && p.1 == None
      && |p.0| == |rows|
      && forall i :: 0 <= i < |rows| ==>
           && p.0[i].category == Some(OrElse(rows[i].category, NoCategory))
           && p.0[i].description == Some(OrElse(rows[i].description, NoDescription))
           && p.0[i].paymentDate == Some(OrElse(rows[i].paymentDate, UnknownDate))
           && p.0[i].amount == Some(OrElse(rows[i].amount, 0))
           && p.0[i].operationDate == rows[i].operationDate
           && p.0[i].cardNumber == rows[i].cardNumber
  {
    PrepareInOrder(columns, rows);
  }

  /** The first column missing, in the order category, description,
      payment date, amount, is the error; the fills before it have been
      written into the caller's rows. */
  lemma FillFailures(columns: set<Column>, rows: seq<Row>)
    ensures Category !in columns ==>
      TopOutcome(columns, rows) == Err(MissingColumn("Категория")) && RowsAfterTop(columns, rows) == rows
    ensures Category in columns && Description !in columns ==>
      TopOutcome(columns, rows) == Err(MissingColumn("Описание"))
      && RowsAfterTop(columns, rows) == FillColumn(rows, Category)
    ensures Category in columns && Description in columns && PaymentDate !in columns ==>
      TopOutcome(columns, rows) == Err(MissingColumn("Дата платежа"))
      && RowsAfterTop(columns, rows) == FillColumn(FillColumn(rows, Category), Description)
    ensures Category in columns && Description in columns && PaymentDate in columns && Amount !in columns ==>
      TopOutcome(columns, rows) == Err(MissingColumn("Сумма платежа"))
      && RowsAfterTop(columns, rows) == FillColumn(FillColumn(FillColumn(rows, Category), Description), PaymentDate)
  {
    PrepareInOrder(columns, rows);
  }

  /** With all four columns present: at most five records, taken in order
      from the filled rows re-sorted largest magnitude first, ties in their
      original order; the caller's frame now holds those re-sorted rows;
      no row left out is larger than a record kept; each amount keeps its
      sign. */
  lemma TopFive(columns: set<Column>, rows: seq<Row>)
    requires Category in columns && Description in columns && PaymentDate in columns && Amount in columns
    ensures var filled := Prepare(columns, rows, FillOrder).0;
      var sorted := RowsAfterTop(columns, rows);
      var top := TopOutcome(columns, rows);
      && top.Ok?
      && |top.value| == Min(TopCount, |rows|)
      && multiset(sorted) == multiset(filled)
      && ByMagnitude(sorted)
      && (forall m: nat :: Filter(sorted, HasMagnitude(m)) == Filter(filled, HasMagnitude(m)))
      && (forall i :: 0 <= i < |top.value| ==> top.value[i] == Entry(sorted[i]) && Abs(top.value[i].amount) == Magnitude(sorted[i]))
      && (forall i, j :: 0 <= i < |top.value| <= j < |sorted| ==> Magnitude(sorted[j]) <= Abs(top.value[i].amount))
  {
    FillsAll(columns, rows);
    var filled := Prepare(columns, rows, FillOrder).0;
    var sorted := SortByMagnitude(filled);
    SortPermutes(filled);
    SortSorted(filled);
    forall m: nat ensures Filter(sorted, HasMagnitude(m)) == Filter(filled, HasMagnitude(m)) {
      SortStable(filled, m);
    }
    forall i | 0 <= i < |sorted| ensures sorted[i].amount.Some? {
      assert sorted[i] in multiset(filled);
    }
  }

  /** A frame without columns fails on the category column. */
  lemma EmptyFrame()
    ensures Message(UtilsPrefix, TopOutcome({}, []).error) == "Произошла ошибка 'Категория'"
  {
  }
}
