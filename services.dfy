/** `search_transfers_to_individuals` (src/services.py): the rows of
    category "Переводы" whose description is a first name and the initial
    of a surname, such as "Дмитрий Р.". The regular expression
    `^[А-Я][а-я]+\s[А-Я]\.$` is matched by hand over code points. */
module Services {
  import opened Seqs
  import opened Text
  import opened Outcomes
  import opened Ledger

  const TransferCategory: string := "Переводы"

  /** `[А-Я]`: U+0410 to U+042F (Ё, U+0401, is outside). */
  predicate IsCapital(c: char)
  {
    'А' <= c <= 'Я'
  }

  /** `[а-я]`: U+0430 to U+044F (ё, U+0451, is outside). */
  predicate IsSmall(c: char)
  {
    'а' <= c <= 'я'
  }

  /** The end of the run of small letters of `s` that starts at `i`. */
  function SmallRunEnd(s: string, i: nat): (k: nat)
    requires i <= |s|
    ensures i <= k <= |s|
    ensures forall j :: i <= j < k ==> IsSmall(s[j])
    ensures k < |s| ==> !IsSmall(s[k])
    decreases |s| - i
  {
    if i < |s| && IsSmall(s[i]) then SmallRunEnd(s, i + 1) else i
  }

  /** `re.match` of the pattern: a capital, the longest run of small
      letters (at least one), a white-space character, a capital, a dot,
      and then the end of the text or a final newline (which `$` also
      accepts). No backtracking is needed: a white-space character is
      never a small letter. */
  predicate MatchesNameInitial(s: string)
  {
    && 2 <= |s| && IsCapital(s[0]) && IsSmall(s[1])
    && var k := SmallRunEnd(s, 1);
       && k + 3 <= |s| && IsSpace(s[k]) && IsCapital(s[k + 1]) && s[k + 2] == '.'
       && (|s| == k + 3 || (|s| == k + 4 && s[k + 3] == '\n'))
  }

  /** The pattern read directly: some split of the text into the parts the
      regular expression names. */
  ghost predicate NamePattern(s: string)
  {
    exists k :: 2 <= k && k + 3 <= |s| && NameSplit(s, k)
  }

  /** The text is the pattern with the small-letter run ending before `k`. */
  ghost predicate NameSplit(s: string, k: int)
    requires 2 <= k && k + 3 <= |s|
  {
    && IsCapital(s[0])
    && (forall j :: 1 <= j < k ==> IsSmall(s[j]))
    && IsSpace(s[k]) && IsCapital(s[k + 1]) && s[k + 2] == '.'
    && (|s| == k + 3 || (|s| == k + 4 && s[k + 3] == '\n'))
  }

  /** White space is never a small letter. */
  lemma SpaceIsNotSmall(c: char)
    requires IsSpace(c)
    ensures !IsSmall(c)
  {
  }

  /** The hand matcher accepts exactly the texts the pattern describes. */
  lemma MatcherCorrect(s: string)
    ensures MatchesNameInitial(s) <==> NamePattern(s)
  {
    if MatchesNameInitial(s) {
      var k := SmallRunEnd(s, 1);
      assert NameSplit(s, k);
    }
    if NamePattern(s) {
      var k :| 2 <= k && k + 3 <= |s| && NameSplit(s, k);
      SpaceIsNotSmall(s[k]);
      SmallRunIsSplit(s, 1, k);
    }
  }

  /** A run of small letters from `i` that stops at index `k` ends at `k`. */
  lemma {:induction false} SmallRunIsSplit(s: string, i: nat, k: nat)
    requires i <= k < |s|
    requires forall j :: i <= j < k ==> IsSmall(s[j])
    requires !IsSmall(s[k])
    ensures SmallRunEnd(s, i) == k
    decreases k - i
  {
    if i < k {
      SmallRunIsSplit(s, i + 1, k);
    }
  }

  /** `df["Категория"] == "Переводы"`: an empty cell is not equal. */
  predicate IsTransfer(r: Row)
  {
    r.category == Some(TransferCategory)
  }

  /** `transfers_df["Описание"].str.match(pattern)` for a non-empty cell. */
  predicate DescribesPerson(r: Row)
  {
    r.description.Some? && MatchesNameInitial(r.description.value)
  }

  /** Both selections at once. */
  predicate IsPersonalTransfer(r: Row)
  {
    IsTransfer(r) && DescribesPerson(r)
  }

  /** What `search_transfers_to_individuals` returns. A transfer with an
      empty description gives NaN in the mask, which pandas refuses. */
  function SearchTransfers(columns: set<Column>, rows: seq<Row>): (r: Result<seq<Row>>)
    ensures r.Ok? ==> |r.value| <= |rows| && forall x :: x in r.value ==> x in rows && IsPersonalTransfer(x)
  {
    if Category !in columns then Err(MissingColumn(ColumnName(Category)))
    else
      var transfers := Filter(rows, IsTransfer);
      if Description !in columns then Err(MissingColumn(ColumnName(Description)))
      else if exists r :: r in transfers && r.description.None? then Err(MaskWithNA)
      else Ok(Filter(transfers, DescribesPerson))
  }

  // ---------------------------------------------------------------------
  // properties

  /** When the search succeeds, the rows returned are the transfers whose
      description matches, unchanged and in their original order. */
  lemma SearchSelects(columns: set<Column>, rows: seq<Row>, found: seq<Row>)
    requires SearchTransfers(columns, rows) == Ok(found)
    ensures found == Filter(rows, IsPersonalTransfer)
    ensures IsSubsequence(found, rows)
  {
    var transfers := Filter(rows, IsTransfer);
    assert found == Filter(transfers, DescribesPerson);
    FilterFilter(rows, IsTransfer, DescribesPerson, IsPersonalTransfer);
    FilterIsSubsequence(rows, IsPersonalTransfer);
  }

  /** A row is found exactly when it is a transfer whose description has
      the form of the pattern. */
  lemma SearchMembership(columns: set<Column>, rows: seq<Row>, found: seq<Row>)
    requires SearchTransfers(columns, rows) == Ok(found)
    ensures forall x :: x in found <==> x in rows && IsTransfer(x) && x.description.Some? && NamePattern(x.description.value)
  {
    SearchSelects(columns, rows, found);
    forall x ensures x in found <==> x in rows && IsTransfer(x) && x.description.Some? && NamePattern(x.description.value) {
      FilterMembership(rows, IsPersonalTransfer, x);
      if x.description.Some? {
        MatcherCorrect(x.description.value);
      }
    }
  }

  /** The errors: the category column is read first, then the description
      column; an empty description among the transfers spoils the mask. */
  lemma SearchFailures(columns: set<Column>, rows: seq<Row>)
    ensures Category !in columns ==> SearchTransfers(columns, rows) == Err(MissingColumn("Категория"))
    ensures Category in columns && Description !in columns ==>
      SearchTransfers(columns, rows) == Err(MissingColumn("Описание"))
    ensures Category in columns && Description in columns ==>
      (SearchTransfers(columns, rows) == Err(MaskWithNA) <==>
       exists i :: 0 <= i < |rows| && IsTransfer(rows[i]) && rows[i].description.None?)
  {
    if Category in columns && Description in columns {
      var transfers := Filter(rows, IsTransfer);
      if exists i :: 0 <= i < |rows| && IsTransfer(rows[i]) && rows[i].description.None? {
        var i :| 0 <= i < |rows| && IsTransfer(rows[i]) && rows[i].description.None?;
        FilterComplete(rows, IsTransfer, rows[i]);
      }
    }
  }

  /** Without any transfer there is nothing to find. */
  lemma NoTransfers(columns: set<Column>, rows: seq<Row>)
    requires Category in columns && Description in columns
    requires forall i :: 0 <= i < |rows| ==> !IsTransfer(rows[i])
    ensures SearchTransfers(columns, rows) == Ok([])
  {
    FilterNone(rows, IsTransfer);
  }

  /** Descriptions from the tests and the edges of the pattern. */
  lemma NameExample()
    ensures MatchesNameInitial("Дмитрий Р.")
  {
    var a := "Дмитрий Р.";
    SmallRunIsSplit(a, 1, 7);
  }

  lemma OtherNameExample()
    ensures MatchesNameInitial("Иванов И.")
  {
    var b := "Иванов И.";
    SmallRunIsSplit(b, 1, 6);
  }

  /** `$` also matches before a final newline. */
  lemma FinalNewlineExample()
    ensures MatchesNameInitial("Дмитрий Р.\n")
  {
    var c := "Дмитрий Р.\n";
    SmallRunIsSplit(c, 1, 7);
  }

  /** No initial, a trailing space, a letter outside the ranges, no small
      letter: no match. */
  lemma NoInitial()
    ensures !MatchesNameInitial("Сидоров.")
  {
    var d := "Сидоров.";
    SmallRunIsSplit(d, 1, 7);
  }

  lemma TrailingSpace()
    ensures !MatchesNameInitial("Дмитрий Р. ")
  {
    var e := "Дмитрий Р. ";
    SmallRunIsSplit(e, 1, 7);
  }

  lemma OutsideRanges()
    ensures !MatchesNameInitial("Ёжиков И.")
    ensures !MatchesNameInitial("Д Р.")
  {
  }

  /** The table of the Name-pattern test: the one transfer, "Сидоров.",
      has no initial, so nothing is found. */
  lemma NoInitialExample()
    ensures var rows := [
        Row(Blank, None, None, Some("Супермаркеты"), Some("Иванов И."), None),
        Row(Blank, None, None, Some("Фастфуд"), Some("Петров П."), None),
        Row(Blank, None, None, Some("Переводы"), Some("Сидоров."), None),
        Row(Blank, None, None, Some("Госуслуги"), Some("Петров П."), None)];
      SearchTransfers({Category, Description}, rows) == Ok([])
  {
    var rows := [
        Row(Blank, None, None, Some("Супермаркеты"), Some("Иванов И."), None),
        Row(Blank, None, None, Some("Фастфуд"), Some("Петров П."), None),
        Row(Blank, None, None, Some("Переводы"), Some("Сидоров."), None),
        Row(Blank, None, None, Some("Госуслуги"), Some("Петров П."), None)];
    NoInitial();
    assert Filter(rows, IsTransfer) == [rows[2]];
  }

  /** A frame without columns fails on the category column. */
  lemma EmptyFrame()
    ensures Message(UtilsPrefix, SearchTransfers({}, []).error) == "Произошла ошибка 'Категория'"
  {
  }
}
