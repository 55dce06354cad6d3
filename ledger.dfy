/** The table of bank operations the reports work on: a pandas DataFrame
    with the columns of the bank's Excel export. The functions of the
    reports mutate the caller's frame, so the frame is a class whose rows
    (and whose cached date column) the methods reassign. */
module Ledger {
  import opened Calendar
  import opened Outcomes

  /** The columns the modelled code reads. */
  datatype Column = OperationDate | CardNumber | Amount | Category | Description | PaymentDate

  /** The column labels of the export. */
  function ColumnName(c: Column): (s: string)
    ensures |s| > 0
  {
    match c
    case OperationDate => "Дата операции"
    case CardNumber => "Номер карты"
    case Amount => "Сумма платежа"
    case Category => "Категория"
    case Description => "Описание"
    case PaymentDate => "Дата платежа"
  }

  /** An "Дата операции" cell: empty (NaN), the text of the export, or a
      timestamp written back by `filter_by_date_range`. */
  datatype DateCell = Blank | Text(s: string) | Stamp(t: DateTime)

  /** One operation. `None` is an empty (NaN) cell; amounts are kopecks. */
  datatype Row = Row(
    operationDate: DateCell,
    cardNumber: Option<string>,
    amount: Option<int>,
    category: Option<string>,
    description: Option<string>,
    paymentDate: Option<string>)

  /** `df[df["Сумма платежа"] < 0]`: a NaN amount is not below zero. */
  predicate IsExpense(r: Row)
  {
    r.amount.Some? && r.amount.value < 0
  }

  /** The "Дата операции" cells of the rows, in order. */
  function DateColumn(rows: seq<Row>): (cells: seq<DateCell>)
    ensures |cells| == |rows|
    ensures forall i :: 0 <= i < |rows| ==> cells[i] == rows[i].operationDate
  {
    seq(|rows|, i requires 0 <= i < |rows| => rows[i].operationDate)
  }

  /** The rows with their date cells replaced by `cells`, position by
      position. */
  function WithDates(rows: seq<Row>, cells: seq<DateCell>): (r: seq<Row>)
    requires |cells| == |rows|
    ensures |r| == |rows|
    ensures forall i :: 0 <= i < |rows| ==> r[i] == rows[i].(operationDate := cells[i])
  {
    seq(|rows|, i requires 0 <= i < |rows| => rows[i].(operationDate := cells[i]))
  }

  /** A cached date column that has come apart from the frame's cells has
      one cell per row and no NaN: only a column without NaN stays cached
      after an in-place `dropna`. */
  predicate CacheFits(rows: seq<Row>, cache: Option<seq<DateCell>>)
  {
    cache.Some? ==> |cache.value| == |rows| && Blank !in cache.value
  }

  /** A DataFrame: the columns it has and its rows in index order. A row's
      cells for columns the frame lacks are never read.

      `dateCache` is the Series the frame's item cache returns for
      `df["Дата операции"]` once it no longer shares the frame's cells (an
      in-place `dropna` moves it onto a copy of its own); writes through it
      then reach only that copy, while `iterrows`, `df[mask]` and every
      other column read see the frame's cells. `None` stands for a column
      read straight from the cells. Assigning any column clears the cache.

      `oneBlock` says that pandas keeps the whole frame as one block of
      object cells, as it does for a frame whose every column holds text.
      The rows `iterrows` yields are then views of the frame's cells, and
      a write into such a row reaches the frame; otherwise each row is a
      copy. Which layout a frame has depends on the dtypes of all its
      columns, including those the model does not carry, so it is given to
      the constructor. Assigning a column splits the block. */
  class Table {
    var columns: set<Column>
    var rows: seq<Row>
    var dateCache: Option<seq<DateCell>>
    var oneBlock: bool

    ghost predicate Valid()
      reads this
    {
      CacheFits(rows, dateCache)
    }

    constructor (columns: set<Column>, rows: seq<Row>, oneBlock: bool)
      ensures this.columns == columns && this.rows == rows && dateCache == None
      ensures this.oneBlock == oneBlock
      ensures Valid()
    {
      this.columns := columns;
      this.rows := rows;
      this.dateCache := None;
      this.oneBlock := oneBlock;
    }
  }
}
