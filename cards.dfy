/** `get_card_information` (src/utils.py): the expenses of each card. The
    rows with a negative amount are grouped by card number (cards in
    ascending order, empty card numbers dropped) and each group's amounts
    are summed; the entry of a card gives its number without the first
    character, the absolute sum, and a cashback of one per hundred. */
module Cards {
  import opened Seqs
  import opened Text
  import opened Money
  import opened Outcomes
  import opened Ledger

  /** One entry of the result; amounts in kopecks. */
  datatype CardSummary = CardSummary(lastDigits: string, totalSpent: nat, cashback: nat)

  /** The card number of each expense row that has one, in row order. */
  function ExpenseCards(rows: seq<Row>): (cards: seq<string>)
    ensures |cards| <= |rows|
  {
    if rows == [] then []
    else (if IsExpense(rows[0]) && rows[0].cardNumber.Some? then [rows[0].cardNumber.value] else [])
         + ExpenseCards(rows[1..])
  }

  /** The cards listed are exactly those of the expense rows. */
  lemma {:induction false} ExpenseCardsMembership(rows: seq<Row>, c: string)
    ensures c in ExpenseCards(rows) <==> exists i :: 0 <= i < |rows| && IsExpense(rows[i]) && rows[i].cardNumber == Some(c)
  {
    if rows != [] {
      var rest := rows[1..];
      ExpenseCardsMembership(rest, c);
      if exists i :: 1 <= i < |rows| && IsExpense(rows[i]) && rows[i].cardNumber == Some(c) {
        var i :| 1 <= i < |rows| && IsExpense(rows[i]) && rows[i].cardNumber == Some(c);
        assert rest[i - 1] == rows[i];
      }
      if exists i :: 0 <= i < |rest| && IsExpense(rest[i]) && rest[i].cardNumber == Some(c) {
        var i :| 0 <= i < |rest| && IsExpense(rest[i]) && rest[i].cardNumber == Some(c);
        assert rows[i + 1] == rest[i];
      }
    }
  }

  /** The sum of the expense amounts on card `c`. */
  function CardSum(rows: seq<Row>, c: string): (sum: int)
  {
    if rows == [] then 0
    else (if IsExpense(rows[0]) && rows[0].cardNumber == Some(c) then rows[0].amount.value else 0)
         + CardSum(rows[1..], c)
  }

  /** `str(card)[1:]`. */
  function LastDigits(card: string): (s: string)
    ensures card != [] ==> card == [card[0]] + s
    ensures card == [] ==> s == []
  {
    if card == [] then [] else card[1..]
  }

  /** The entry of a card whose expenses sum to `sum`. */
  function Summary(card: string, sum: int): CardSummary
  {
    var spent := Abs(sum);
    CardSummary(LastDigits(card), spent, RoundHalfEven(spent, 100))
  }

  /** What `get_card_information` returns: the amount column is read
      before the card column. */
  function CardSummaries(columns: set<Column>, rows: seq<Row>): (r: Result<seq<CardSummary>>)
    ensures r.Ok? <==> Amount in columns && CardNumber in columns
    ensures r.Ok? ==> forall i :: 0 <= i < |r.value| ==> 2 * Abs(r.value[i].cashback * 100 - r.value[i].totalSpent) <= 100
  {
    if Amount !in columns then Err(MissingColumn(ColumnName(Amount)))
    else if CardNumber !in columns then Err(MissingColumn(ColumnName(CardNumber)))
    else
      var keys := SortedKeys(ExpenseCards(rows));
      Ok(seq(|keys|, i requires 0 <= i < |keys| => Summary(keys[i], CardSum(rows, keys[i]))))
  }

  /** `get_card_information(t)`: select the expenses, group them by card,
      and append one entry per group. The caller's table is not changed. */
  method GetCardInformation(t: Table) returns (r: Result<seq<CardSummary>>)
    ensures r == CardSummaries(t.columns, t.rows)
  {
    if Amount !in t.columns {
      return Err(MissingColumn(ColumnName(Amount)));
    }
    var expenses := Filter(t.rows, IsExpense);
    if CardNumber !in t.columns {
      return Err(MissingColumn(ColumnName(CardNumber)));
    }
    var rows := t.rows;
    var keys := SortedKeys(ExpenseCards(expenses));
    SelectExpensesCards(rows);
    var cards: seq<CardSummary> := [];
    var i := 0;
    while i < |keys|
      invariant 0 <= i <= |keys|
      invariant |cards| == i
      invariant forall j :: 0 <= j < i ==> cards[j] == Summary(keys[j], CardSum(rows, keys[j]))
    {
      SelectExpensesSum(rows, keys[i]);
      var total := Abs(CardSum(expenses, keys[i]));
      cards := cards + [CardSummary(LastDigits(keys[i]), total, RoundHalfEven(total, 100))];
      i := i + 1;
    }
    assert cards == seq(|keys|, j requires 0 <= j < |keys| => Summary(keys[j], CardSum(rows, keys[j])));
    r := Ok(cards);
  }

  // ---------------------------------------------------------------------
  // properties

  /** Selecting the expenses first changes neither the cards nor their sums. */
  lemma {:induction false} SelectExpensesCards(rows: seq<Row>)
    ensures ExpenseCards(Filter(rows, IsExpense)) == ExpenseCards(rows)
  {
    if rows != [] {
      SelectExpensesCards(rows[1..]);
      var f := Filter(rows, IsExpense);
      if IsExpense(rows[0]) {
        assert f == [rows[0]] + Filter(rows[1..], IsExpense);
        assert f[0] == rows[0] && f[1..] == Filter(rows[1..], IsExpense);
      } else {
        assert f == Filter(rows[1..], IsExpense);
      }
    }
  }

  lemma {:induction false} SelectExpensesSum(rows: seq<Row>, c: string)
    ensures CardSum(Filter(rows, IsExpense), c) == CardSum(rows, c)
  {
    if rows != [] {
      SelectExpensesSum(rows[1..], c);
      var f := Filter(rows, IsExpense);
      if IsExpense(rows[0]) {
        assert f == [rows[0]] + Filter(rows[1..], IsExpense);
        assert f[0] == rows[0] && f[1..] == Filter(rows[1..], IsExpense);
      } else {
        assert f == Filter(rows[1..], IsExpense);
      }
    }
  }

  /** Only expenses count: income rows and rows with an empty amount can
      be removed without changing the result. */
  lemma IncomeIgnored(columns: set<Column>, rows: seq<Row>)
    ensures CardSummaries(columns, Filter(rows, IsExpense)) == CardSummaries(columns, rows)
  {
    if Amount in columns && CardNumber in columns {
      SelectExpensesCards(rows);
      var keys := SortedKeys(ExpenseCards(rows));
      var a := CardSummaries(columns, Filter(rows, IsExpense)).value;
      var b := CardSummaries(columns, rows).value;
      assert |a| == |b| == |keys|;
      forall i | 0 <= i < |keys| ensures a[i] == b[i] {
        SelectExpensesSum(rows, keys[i]);
      }
      assert a == b;
    }
  }

  /** A card's sum is never positive, and is negative exactly when the
      card has an expense. */
  lemma {:induction false} CardSumSign(rows: seq<Row>, c: string)
    ensures CardSum(rows, c) <= 0
    ensures CardSum(rows, c) < 0 <==> c in ExpenseCards(rows)
  {
    if rows != [] {
      CardSumSign(rows[1..], c);
    }
  }

  /** One entry per card that has an expense, in ascending order of card
      number, each with the card's number minus its first character, the
      total spent (positive), and the cashback: the total divided by 100,
      rounded to a whole kopeck. The amount column is looked up first.
      The cashback is promised only to within half a kopeck: on an exact
      tie either neighbour satisfies it, on purpose, because the float
      `round` of the source may go either way there (the model itself
      rounds half to even, see `Summary`). */
  lemma CardGrouping(columns: set<Column>, rows: seq<Row>)
    ensures Amount !in columns ==> CardSummaries(columns, rows) == Err(MissingColumn("Сумма платежа"))
    ensures Amount in columns && CardNumber !in columns ==>
      CardSummaries(columns, rows) == Err(MissingColumn("Номер карты"))
    ensures Amount in columns && CardNumber in columns ==>
      var cards := CardSummaries(columns, rows).value;
      var keys := SortedKeys(ExpenseCards(rows));
      && StrictlyAscending(keys)
      && (forall c :: c in keys <==> c in ExpenseCards(rows))
      && |cards| == |keys|
      && forall i :: 0 <= i < |keys| ==>
           && cards[i].lastDigits == LastDigits(keys[i])
           && cards[i].totalSpent == -CardSum(rows, keys[i]) > 0
           && 2 * Abs(cards[i].cashback * 100 - cards[i].totalSpent) <= 100
           && cards[i].cashback <= cards[i].totalSpent
  {
    if Amount in columns && CardNumber in columns {
      var keys := SortedKeys(ExpenseCards(rows));
      forall i | 0 <= i < |keys| ensures -CardSum(rows, keys[i]) > 0 && RoundHalfEven(Abs(CardSum(rows, keys[i])), 100) <= Abs(CardSum(rows, keys[i])) {
        CardSumSign(rows, keys[i]);
        RoundHalfEvenAtMost(Abs(CardSum(rows, keys[i])), 100);
      }
    }
  }

  /** A table with no columns fails on the amount column. */
  lemma EmptyFrame()
    ensures Message(UtilsPrefix, CardSummaries({}, []).error) == "Произошла ошибка 'Сумма платежа'"
  {
  }
}
