# Banking-transactions reports in Dafny

A model of the reporting core of a small script over a bank's export of
card operations (a pandas DataFrame with the columns "Дата операции",
"Номер карты", "Сумма платежа", "Категория", "Описание" and "Дата
платежа"):

- the greeting by time of day (`get_greetings`);
- the date window and filter (`filter_by_date_range`), which parses a
  reference instant and every operation date, writes the parsed timestamps
  through the frame's cached "Дата операции" column, and keeps the rows
  whose date lies inside the closed window; the rows it returns hold their
  date texts when the frame has a column that is not text, and the parsed
  timestamps when every column holds text;
- the expenses per card (`get_card_information`);
- the five largest operations (`get_top_transactions_by_amount`), which
  fills empty cells and re-sorts the caller's table in place;
- the mean spending per weekday over three months (`spending_by_weekday`);
- the transfers to private persons (`search_transfers_to_individuals`),
  with the regular expression `^[А-Я][а-я]+\s[А-Я]\.$` matched by hand
  over code points.

Conventions of the model:

- Amounts are integer kopecks (`Option<int>`; `None` is an empty, NaN cell).
  Python's `round(x, 2)` becomes round-half-even of an exact quotient
  (`Money.RoundHalfEven`): the cashback is `|sum|` over 100, the weekday
  mean is `|sum|` over the count.
- A DataFrame is the class `Ledger.Table`: the set of columns it has, its
  rows in index order, and `dateCache`, the "Дата операции" column pandas
  keeps cached for `df["Дата операции"]` once it has come apart from the
  frame's cells. `df["Дата операции"].dropna(inplace=True)` detaches it
  when it drops nothing: the values are written into the cells, and the
  later writes `df["Дата операции"][index] = …` land in the cached
  column only. When a NaN is dropped the column is evicted, and the writes
  reach the cells. The window mask is read from the column and applied to
  the cells. The table's `oneBlock` flag says whether pandas stores the
  whole frame as one block of object cells, as it does when every column
  holds text. The loop first writes each timestamp into the `iterrows`
  row, which is then a view of that block, so the timestamp reaches the
  frame's cell as well. In a frame with a column that is not text (the
  amount, say) the row is a copy and that write is lost. So a successful
  filter on such a frame leaves the caller's rows as they were and only the
  cached column holds timestamps; on a one-block frame the cells hold them
  too. Either way a second filter's `dropna` puts timestamps into the
  cells. Assigning a column (the top-5 fills) clears the cache and splits
  the block. The filter and the top-5 methods update the table as the
  source mutates the caller's frame; every other operation reads it.
- Timestamps are `Calendar.DateTime` values compared field by field.
  Month subtraction follows `pd.DateOffset(months=n)`: the month moves back,
  the day is clamped, the time is kept. Weekdays come from Python's
  proleptic Gregorian ordinal.
- `datetime.strptime` is modelled as CPython builds it: a regular
  expression per directive, matched leftmost-first with backtracking,
  followed by the range checks of `datetime` (module `Strptime`).
- The clock is the parameter `now`.
- `filter_by_date_range`, `get_card_information`,
  `get_top_transactions_by_amount`, `search_transfers_to_individuals` and
  `spending_by_weekday` return the text `"Произошла ошибка "` + `str(e)`
  (lower-case in `spending_by_weekday`) instead of raising. The model
  returns `Err(f)` with the exception as an `Outcomes.Failure` value;
  `Outcomes.Message` gives the text. `get_greetings` has no handler and
  cannot fail.

Modules: `Seqs` (boolean-mask selection), `Text` (Python string order,
sorted group keys, digits, `\s`), `Calendar`, `Strptime`, `Money`,
`Outcomes`, `Ledger` (columns, rows, the table), `Greetings`, `DateFilter`,
`Cards`, `TopTransactions`, `Reports`, `Services`, and `Scenario` (the
report of the test fixture).

## Model

| member | source | states |
|---|---|---|
| Greetings.Greeting | src/utils.py:22-39 | the greeting is one of "Доброй ночи", "Доброе утро", "Добрый день" and "Добрый вечер" |
| Greetings.GreetingClasses | src/utils.py:26-36 | the greeting is "Доброй ночи" exactly when the time is strictly after 00:00:00 and before 06:00:00; "Доброе утро" on [06:00:00, 12:00:00); "Добрый день" on [12:00:00, 18:00:00); "Добрый вечер" from 18:00:00 and at exactly 00:00:00 |
| Greetings.LessTimeText | src/utils.py:28-33 | the "%H:%M:%S" texts compare, as Python strings, exactly as the times of day they show |
| Greetings.Comparisons | src/utils.py:29-33 | each of the six string comparisons of the branches holds exactly when the corresponding comparison of seconds since midnight does |
| Greetings.MorningExample | tests/test_utils.py:12-15 | at 06:00:19 the greeting is "Доброе утро" |
| Greetings.DayExample | tests/test_utils.py:18-21 | at 12:00:00 the greeting is "Добрый день" |
| Greetings.EveningExample | tests/test_utils.py:24-27 | at 18:00:01 and at 00:00:00 the greeting is "Добрый вечер" |
| Greetings.NightExample | tests/test_utils.py:30-34 | at 05:59:59 the greeting is "Доброй ночи" |
| Strptime.ParseRender | src/utils.py:64-80 | `strptime` of the rendering of a datetime with either format gives that datetime back when it is valid; with more text after it, or with year 0, a day past the month's end or second 60 or 61, it gives the error `datetime` raises, checked in that order |
| Strptime.Parse | src/utils.py:70 | any datetime `strptime` accepts is a valid calendar instant |
| DateFilter.AbsentDateMeansNow | src/utils.py:63-64 | without `date` the reference is the clock reading itself: its formatted text parses back to `now` |
| DateFilter.WindowStart | src/utils.py:72-74 | for `count_month` at most 1 the start is the first of the reference's month at midnight; above 1 it is the reference moved back `count_month` calendar months (day clamped, time kept), an error exactly when that falls before year 1; the start is valid and never after the reference |
| Calendar.MonthsBack | src/utils.py:74 | the month index drops by exactly `n`, the day is the reference's day clamped to the target month's length, the time of day is unchanged, and the result is strictly before a valid reference |
| Calendar.MonthStart | src/utils.py:72 | the same year and month at the first day and midnight, not after any instant of that month |
| DateFilter.Dropna | src/utils.py:67 | the frame's date cells become the column as read and nothing else changes; the column stays cached, equal to those cells, exactly when it holds no NaN; a frame without a detached column keeps its rows |
| DateFilter.AfterLoop | src/utils.py:79-81 | the timestamps of the loop go into the cached column when there is one, and into the frame's cells when there is none or the frame is one block; a frame with a cached column and a column that is not text keeps its rows |
| DateFilter.StampAll | src/utils.py:79-81 | the loop over a snapshot of the rows parses each date cell in order and writes its timestamp through the row and through the column, into the cached column or else the frame's cells, and into the cells of a one-block frame as well, stopping at the first cell that does not parse with its error; the failure, the new rows and the new cached column are those of `StampDates` and `AfterLoop`, and the layout is unchanged |
| DateFilter.StampDatesComplete | src/utils.py:79-81 | the loop runs to the end exactly when every date cell parses, and then every timestamp written is that cell's parse |
| DateFilter.StampDatesStops | src/utils.py:79-81 | when the loop fails it fails at the first cell that does not parse, with that cell's error; timestamps are written for the cells before it, and it and the cells after it are not written |
| DateFilter.SelectStamps | src/utils.py:80-83 | selecting rows by the mask and stamping them gives the same rows as stamping the frame and selecting, so the rows a one-block frame returns are the window's rows with their timestamps |
| DateFilter.StampDatesCells | src/utils.py:80-81 | the loop writes a cell at most once, and only that row's parsed timestamp |
| DateFilter.FilterOutcome | src/utils.py:58-89 | a success means the date column exists and returns at most as many rows as the table has; without the column the error is the `KeyError` on it |
| DateFilter.StateAfterFilter | src/utils.py:58-89 | the frame and its cached column afterwards keep the table invariant and the number of rows |
| DateFilter.FilterByDateRange | src/utils.py:58-89 | the result and the caller's new rows and cached column are those of `FilterOutcome` and `StateAfterFilter`; the columns and the layout are unchanged |
| DateFilter.MaskSelectsWindow | src/utils.py:83 | the mask computed from the timestamps of a complete loop selects from the frame exactly the rows whose date text parses into the window |
| DateFilter.FilterSucceeds | src/utils.py:63-89 | with the date column present, both instants computed and every cell of the column parsing, the call returns the frame's rows whose date text parses into the window, holding their timestamps in a one-block frame and their texts otherwise; the cached column holds every row's timestamp, and the frame keeps its rows unless it is one block, where its cells hold the timestamps |
| DateFilter.FilterKeepsWindow | src/utils.py:79-89 | on success the date column existed, both instants were computed and every cell parsed; the rows returned are those of the frame whose date parses to an instant with start ≤ date ≤ reference: exactly those rows, each as many times as it occurs, in their original order, with the date text unchanged, or replaced by its timestamp in a one-block frame; a frame without a detached column is the caller's table as it was |
| DateFilter.FilterCachesTimestamps | src/utils.py:67-83 | after a successful call the cached column holds each cell's parsed timestamp; in a frame with a column that is not text the rows are those `dropna` left (the caller's when nothing was cached), and in a one-block frame they carry those timestamps in their date cells |
| DateFilter.FailedLoopState | src/utils.py:67-81 | when the loop stops at a cell that does not parse: with a NaN in the column the rows before it hold their timestamps in the frame itself; without one the cached column holds the timestamps, and the frame keeps its cells unless it is one block, where the cells before the failure hold their timestamps |
| DateFilter.FilterFailures | src/utils.py:63-86 | the call fails exactly when the date column is missing, the reference does not parse, the window start falls before year 1, or some cell of the column as `df["Дата операции"]` reads it does not parse; a missing column gives "Произошла ошибка 'Дата операции'" and leaves the frame and its cached column untouched |
| DateFilter.EmptyWindow | src/utils.py:83 | when every cell of the column parses to an instant outside the window the result is an empty table, not an error |
| DateFilter.FilterWithoutDate | src/utils.py:63-64 | without `date` the rows kept are the frame's rows whose date text parses into the window from the window start of `now` up to `now`, each as many times as it occurs, in order, stamped in a one-block frame |
| DateFilter.DropnaStamps | src/utils.py:67 | `dropna` on a cached column holding the timestamps of a complete loop writes them into the frame's cells and keeps the column cached, whether the cells held the texts or already the timestamps |
| DateFilter.SecondFilterFails | src/utils.py:67-81 | after a successful call on a non-empty table, a second call fails whatever the frame's layout: its `dropna` puts the cached timestamps into the cells, and once its reference and window start are computed the error is the `strptime` refusal of a `datetime` argument; the frame's rows then carry the timestamps |
| Seqs.SelectByCondition | src/utils.py:83 | a boolean mask that holds exactly where a condition holds selects what the condition selects |
| Cards.GetCardInformation | src/utils.py:92-116 | the method's list of entries, built by a loop over the sorted cards, is `CardSummaries` of the table |
| Cards.CardSummaries | src/utils.py:92-116 | the call succeeds exactly when both the amount and the card columns exist, and every cashback is within half a kopeck of a hundredth of the total spent |
| Cards.CardGrouping | src/utils.py:99-113 | the amount column is looked up first, then the card column; otherwise one entry per card with an expense, in strictly ascending card order, each with the card text minus its first character, the total spent as the positive absolute sum, and the cashback within half a kopeck of a hundredth of it, at most the total |
| Cards.IncomeIgnored | src/utils.py:99 | removing the income rows and the rows with an empty amount does not change the result |
| Cards.ExpenseCardsMembership | src/utils.py:99-100 | a card is listed exactly when some expense row carries that card number; rows with an empty card number are dropped |
| Cards.CardSumSign | src/utils.py:100 | a card's sum of expenses is never positive, and is negative exactly when the card has an expense |
| Cards.EmptyFrame | src/utils.py:99 | a table without columns gives "Произошла ошибка 'Сумма платежа'" |
| Money.RoundHalfEven | src/utils.py:107-108 | the result is within half of the exact quotient, and even on a tie |
| Money.RoundHalfEvenUnique | src/utils.py:107-108 | any integer nearest to the quotient, even on a tie, is the rounded value |
| Money.RoundHalfEvenAtMost | src/utils.py:108 | dividing by at least 2 and rounding never exceeds the amount, so the cashback is at most the spend |
| TopTransactions.GetTopTransactions | src/utils.py:119-147 | the result and the caller's new rows are those of `TopOutcome` and `RowsAfterTop`; the records are built by a loop over the first five rows; once the category column is assigned the cached date column is gone and the frame is no longer one block |
| TopTransactions.TopOutcome | src/utils.py:119-147 | a success lists min(5, n) records for n rows |
| TopTransactions.SortByMagnitude | src/utils.py:130 | the sorted table has as many rows as the input (permutation, order and stability below) |
| TopTransactions.FillsAll | src/utils.py:125-128 | each empty category, description, payment date and amount becomes "Нет категории", "Нет описания", "Неизвестна" and 0; every other cell is unchanged |
| TopTransactions.FillFailures | src/utils.py:125-128 | the first missing column, in the order category, description, payment date, amount, is the error, and the caller's rows keep the fills made before it |
| TopTransactions.TopFive | src/utils.py:125-141 | with the four columns present: min(5, n) records, taken in order from the filled rows re-sorted largest magnitude first with ties in original order; the caller's table holds those re-sorted rows; no row left out is larger than a record kept; each amount keeps its sign |
| TopTransactions.SortPermutes | src/utils.py:130 | the sort is a permutation of the rows |
| TopTransactions.SortSorted | src/utils.py:130 | the sorted rows are in non-increasing order of absolute amount |
| TopTransactions.SortStable | src/utils.py:130 | rows of equal absolute amount keep their relative order |
| TopTransactions.PrepareInOrder | src/utils.py:125-128 | the four fills are applied one after the other, stopping at the first missing column |
| TopTransactions.EmptyFrame | tests/test_utils.py:166-169 | a table without columns gives "Произошла ошибка 'Категория'" |
| Reports.SpendingByWeekday | src/reports.py:23-51 | the result is `SpendingOutcome`, and the caller's rows, cached date column and layout are those the three-month filter leaves |
| Reports.SpendingOutcome | src/reports.py:23-51 | a failure is the `.loc` error on the filter's text or the missing amount column; a success means the filter succeeded and the amount column exists |
| Reports.ReportFailures | src/reports.py:28-51 | any failure of the filter becomes the `.loc` error on the text it returns; after that a missing amount column is the error |
| Reports.ReportWindow | src/reports.py:28-46 | otherwise the records are those of the kept rows, whose dates all convert to instants between three calendar months before the reference and the reference, ends included |
| Reports.WeekdaysListed | src/reports.py:41-43 | the weekday names are strictly ascending, and a day is listed exactly when some expense falls on it |
| Reports.WeekdayMeans | src/reports.py:41-46 | each record's spending is the absolute mean of its day's expenses, rounded half to even, and at least one kopeck |
| Reports.DayMean | src/reports.py:42-46 | a day with an expense has a positive count and an absolute mean of at least one kopeck |
| Reports.ExpensesOnly | src/reports.py:38 | dropping the rows that are not expenses does not change the records |
| Reports.DayNamesOnly | src/reports.py:35-37 | every listed day is one of the seven English day names |
| Reports.Instant | src/reports.py:30-32 | `pd.to_datetime` with the filter's format keeps a valid timestamp as it is and converts a text to its `strptime` parse; the instant is valid |
| Reports.KeptDated | src/reports.py:28-32 | every row the filter keeps has a date `pd.to_datetime` converts: a text that parses with its format, or in a one-block frame the timestamp the filter wrote, so that step cannot fail |
| Calendar.WeekdayName | src/reports.py:36 | the name is one of the seven day names |
| Calendar.WeekdayNextDay | src/reports.py:36 | the weekday advances by one, modulo seven, from each day to the next |
| Calendar.OrdinalNextDay | src/reports.py:36 | consecutive calendar days have consecutive ordinals |
| Calendar.FirstDayIsMonday | src/reports.py:36 | 0001-01-01 is a Monday |
| Scenario.FixtureWindowStart | tests/test_reports.py:10-15 | with reference 2022-01-21 17:39:33 the three-month window opens at 2021-10-21 17:39:33 |
| Scenario.FixtureInWindow | tests/conftest.py:9-15 | the four December 2021 operations lie inside that window; the 2024 one is after the reference |
| Scenario.TuesdayExample | tests/conftest.py:10 | 2021-12-21 is a Tuesday |
| Scenario.MondayExample | tests/conftest.py:11 | 2021-12-20 is a Monday |
| Scenario.WednesdayExample | tests/conftest.py:12 | 2021-12-01 is a Wednesday |
| Scenario.FridayExample | tests/conftest.py:13 | 2021-12-31 is a Friday |
| Scenario.FixtureSpending | tests/test_reports.py:13-15 | the kept operations give exactly [Friday 645.78, Tuesday 160.89]; the income rows play no part |
| Scenario.TwoExpenseDays | src/reports.py:41-46 | two expenses on different days give two records, ordered by name, each the whole expense made positive |
| Scenario.MonthWindowExample | tests/test_utils.py:80-93 | with reference 2021-12-21 02:06:15 and one month the window opens on 2021-12-01 at midnight; the operations of 21.12, 20.12 and 01.12 lie inside it, those of 31.12 and 2024 after it |
| Services.MatcherCorrect | src/services.py:18-19 | the hand matcher accepts a text exactly when it splits into a capital А–Я, one or more small а–я, one white-space character, a capital А–Я and a dot, optionally followed by one newline |
| Services.SearchTransfers | src/services.py:11-23 | a success returns at most as many rows as the table has, each a row of the table that is a transfer to a person |
| Services.SearchSelects | src/services.py:15-20 | on success the rows returned are the transfers whose description matches, unchanged and in their original order: a subsequence of the input |
| Services.SearchMembership | src/services.py:15-19 | a row is returned exactly when its category is "Переводы" and its description has the form of the pattern |
| Services.SearchFailures | src/services.py:15-23 | a missing category column is the error, then a missing description column; with both present the call fails exactly when some transfer has an empty description |
| Services.NoTransfers | tests/test_services.py:22-29 | a table without a transfer gives the empty list |
| Services.NoInitialExample | tests/test_services.py:32-39 | the table of the name test, whose one transfer is "Сидоров.", gives the empty list |
| Services.NameExample | tests/test_services.py:6-13 | "Дмитрий Р." matches |
| Services.OtherNameExample | tests/test_services.py:24-26 | "Иванов И." matches (it is excluded by its category) |
| Services.FinalNewlineExample | src/services.py:18-19 | "Дмитрий Р." followed by a newline matches, as `$` allows |
| Services.NoInitial | tests/test_services.py:36 | "Сидоров." does not match |
| Services.TrailingSpace | src/services.py:18 | "Дмитрий Р. " does not match |
| Services.OutsideRanges | src/services.py:18 | "Ёжиков И." (Ё lies outside А–Я) and "Д Р." (no small letter) do not match |
| Services.EmptyFrame | tests/test_services.py:16-19 | a table without columns gives "Произошла ошибка 'Категория'" |
| Seqs.FilterMembership | src/services.py:15 | an element is selected by a boolean mask exactly when it is in the table and satisfies the condition |
| Seqs.FilterCount | src/utils.py:83 | a boolean-mask selection keeps every copy of a selected row and no copy of any other |
| Seqs.FilterIsSubsequence | src/services.py:15-19 | a boolean-mask selection keeps the order of the rows it keeps |
| Text.SortedKeys | src/utils.py:100 | the group keys are strictly ascending and are exactly the distinct values grouped |
| Outcomes.Message | src/utils.py:84-86 | the returned error text starts with the function's prefix |

## Left out

- Reading the Excel export, the currency and stock requests, the home-page
  view, the interactive menu, logging and `to_json` are outside the model.
  Results are sequences of records, not JSON text.
- The clock: `datetime.now()` is the parameter `now`.
- Floating point: amounts are exact kopecks. A binary float that rounds
  differently from its exact decimal value, and the float mean of many
  amounts, are not modelled.
- Timestamps carry no microseconds. pandas' `Timestamp` range
  (1677–2262) is not enforced: a window start or a date cell outside it
  is accepted here though pandas would refuse it.
- Strptime.Pad4: `%Y` is always written as four zero-padded digits. CPython
  on glibc writes a year below 1000 without padding, which `strptime` then
  refuses; only a clock reading before year 1000 with `date` absent would
  reach that path, and the model parses it back instead.
- `strptime` reads ASCII digits only. CPython's `\d` also accepts other
  Unicode decimal digits; the model refuses them.
- pandas' item cache is modelled for the date column only, as pandas 2
  without copy-on-write keeps it. Under copy-on-write (the default from
  pandas 3) the writes of src/utils.py:81 reach no frame at all; that
  behaviour is not modelled. A detached cached column never holds NaN
  (`Ledger.CacheFits`), since only a `dropna` that dropped nothing detaches
  it.
- The frame's layout (`Ledger.Table.oneBlock`) is given when the table is
  built, since it follows from the dtypes of all columns, which the model
  does not keep. pandas is taken not to merge blocks again after a column
  assignment splits them. A frame whose only column is "Категория" would
  stay one block after the category fill; no later call can tell, since
  the filter needs the date column.
- DateFilter.SecondFilterFails: a row whose cells other than NaN are all
  timestamps may be read by `iterrows` as a row of `Timestamp` values, so the error would name `Timestamp`, not
  `datetime.datetime`; the model always names `datetime.datetime`.
- Index labels are not modelled: rows are addressed by position. The
  filter's result keeps the caller's labels (tests/test_utils.py:96-107
  shows label 4), and with a duplicate label the write
  `df["Дата операции"][index] = …` would reach every row carrying it; the
  model writes one row per loop step.
- Cell types beyond those the model gives each column (text, or NaN, and
  timestamps for the date cells) are not modelled. That covers a numeric
  description given to `.str.match`, and a description column that is all
  NaN, where pandas raises at `.str` rather than at the mask.
- TopTransactions.SortByMagnitude: the sort is stable. pandas' default
  sort promises no order for rows of equal magnitude; the model picks the
  stable one.
- Cards.CardSummaries: the card number is text, as the export gives it. A
  numeric card column, for which `str(index)[1:]` would drop a digit, is
  not modelled.
- Reports.SpendingOutcome: the `pd.to_datetime` of src/reports.py:30-32
  is modelled as the same `strptime` parse of the kept date texts, and as
  the identity on the timestamps a one-block frame keeps (`Reports.Instant`);
  the conversion to `Timestamp` is not modelled. Its
  assignment goes to the filter's new frame, not the caller's, so the
  model has no table for it.
- Scenario: the text parses of the fixture's five dates and the whole
  filter run on the fixture table are not written out as one lemma. They
  follow from `Strptime.ParseRender` and `DateFilter.FilterKeepsWindow`.
  The card and top-5 results on the fixture are likewise not worked out.
- Tests that disagree with the code, where the model follows the code:
  - tests/test_utils.py:133-139 counts income;
  - tests/test_utils.py:142-145 expects "'Номер карты'", but the amount
    column is read first ("'Сумма платежа'");
  - tests/test_utils.py:148-163 has +1588.36 where the fixture has
    -1588.36;
  - tests/test_utils.py:96-107 and tests/test_reports.py:18-21 depend on
    the wall clock;
  - tests/test_reports.py:24-27 expects `None` where the code returns an
    error text.
- `write_to_file`, imported by tests/test_reports.py:7, does not exist in
  src/reports.py.
