/** The report of tests/test_reports.py:10-15 on the fixture of
    tests/conftest.py:5-28, with reference 2022-01-21 17:39:33: the window
    is 2021-10-21 17:39:33 to the reference, so the four operations of
    December 2021 are kept and the one of 2024 is not. Amounts are in
    kopecks. */
module Scenario {
  import opened Seqs
  import opened Text
  import opened Money
  import opened Calendar
  import opened Outcomes
  import opened DateFilter
  import opened Reports

  const Reference: DateTime := DateTime(2022, 1, 21, 17, 39, 33)

  /** Three months before the reference, same time of day. */
  lemma FixtureWindowStart()
    ensures WindowStart(Reference, ThreeMonths) == Ok(DateTime(2021, 10, 21, 17, 39, 33))
  {
  }

  /** The December operations lie inside the window; the 2024 one is
      after the reference. */
  lemma FixtureInWindow()
    ensures forall t :: t in [DateTime(2021, 12, 21, 1, 6, 22), DateTime(2021, 12, 20, 12, 6, 22),
                              DateTime(2021, 12, 1, 1, 6, 22), DateTime(2021, 12, 31, 0, 12, 53)] ==>
      NotAfter(DateTime(2021, 10, 21, 17, 39, 33), t) && NotAfter(t, Reference)
    ensures !NotAfter(DateTime(2024, 9, 8, 0, 12, 53), Reference)
  {
  }

  /** tests/test_utils.py:80-93: with reference 2021-12-21 02:06:15 and
      one month, the window opens on December 1st at midnight; three of
      the operations fall inside it, the one of the 31st and the one of
      2024 after it. */
  lemma MonthWindowExample()
    ensures WindowStart(DateTime(2021, 12, 21, 2, 6, 15), 1) == Ok(DateTime(2021, 12, 1, 0, 0, 0))
    ensures forall t :: t in [DateTime(2021, 12, 21, 1, 6, 22), DateTime(2021, 12, 20, 12, 6, 22),
                              DateTime(2021, 12, 1, 1, 6, 22)] ==>
      NotAfter(DateTime(2021, 12, 1, 0, 0, 0), t) && NotAfter(t, DateTime(2021, 12, 21, 2, 6, 15))
    ensures !NotAfter(DateTime(2021, 12, 31, 0, 12, 53), DateTime(2021, 12, 21, 2, 6, 15))
    ensures !NotAfter(DateTime(2024, 9, 8, 0, 12, 53), DateTime(2021, 12, 21, 2, 6, 15))
  {
  }

  /** The weekdays of the four kept operations. */
  lemma TuesdayExample()
    ensures WeekdayName(DateTime(2021, 12, 21, 1, 6, 22)) == "Tuesday"
  {
  }

  lemma MondayExample()
    ensures WeekdayName(DateTime(2021, 12, 20, 12, 6, 22)) == "Monday"
  {
  }

  lemma WednesdayExample()
    ensures WeekdayName(DateTime(2021, 12, 1, 1, 6, 22)) == "Wednesday"
  {
  }

  lemma FridayExample()
    ensures WeekdayName(DateTime(2021, 12, 31, 0, 12, 53)) == "Friday"
  {
  }

  /** Two names, the second before the first: sorted, they swap. */
  lemma SortTwo(x: string, y: string)
    requires Less(y, x)
    ensures SortedKeys([x, y]) == [y, x]
  {
    LessIrreflexive(x);
    LessTrichotomy(x, y);
    assert x != y && !Less(x, y);
    assert [x, y][1..] == [y] && [y][1..] == [];
    assert SortedKeys([y]) == InsertKey(y, []) == [y];
    assert InsertKey(x, [y]) == [y] + InsertKey(x, []);
  }

  /** Two rows on different days form two groups of one amount each. */
  lemma GroupsOfTwo(a: Dated, b: Dated)
    requires a.weekday != b.weekday && a.amount.Some? && b.amount.Some?
    ensures GroupSum([a, b], a.weekday) == a.amount.value && GroupCount([a, b], a.weekday) == 1
    ensures GroupSum([a, b], b.weekday) == b.amount.value && GroupCount([a, b], b.weekday) == 1
  {
    assert [a, b][1..] == [b] && [b][1..] == [];
    assert GroupSum([b], a.weekday) == 0;
    assert GroupCount([b], a.weekday) == 0 + GroupCount([b][1..], a.weekday) == 0;
    assert GroupSum([b], b.weekday) == b.amount.value && GroupCount([b], b.weekday) == 1;
  }

  /** Two expenses on different days, the second day first by name:
      two records, each the day's whole expense made positive. */
  lemma TwoExpenseDays(a: Dated, b: Dated)
    requires IsSpend(a) && IsSpend(b) && Less(b.weekday, a.weekday)
    ensures WeekdaySpending([a, b])
         == [DaySpending(b.weekday, -b.amount.value), DaySpending(a.weekday, -a.amount.value)]
  {
    LessIrreflexive(a.weekday);
    var ds := [a, b];
    assert ds[1..] == [b] && ds[1..][1..] == [];
    assert Filter(ds, IsSpend) == ds;
    assert Days(ds) == [a.weekday, b.weekday];
    SortTwo(a.weekday, b.weekday);
    GroupsOfTwo(a, b);
    RoundHalfEvenUnique(-a.amount.value, 1, -a.amount.value);
    RoundHalfEvenUnique(-b.amount.value, 1, -b.amount.value);
  }

  /** Of four rows, the first and the last are the expenses. */
  lemma OuterExpenses(a: Dated, b: Dated, c: Dated, d: Dated)
    requires IsSpend(a) && !IsSpend(b) && !IsSpend(c) && IsSpend(d)
    ensures Filter([a, b, c, d], IsSpend) == [a, d]
  {
    var ds := [a, b, c, d];
    assert ds[1..] == [b, c, d] && ds[1..][1..] == [c, d] && ds[1..][1..][1..] == [d] && [d][1..] == [];
    assert Filter([d], IsSpend) == [d];
    assert Filter([c, d], IsSpend) == [d];
    assert Filter([b, c, d], IsSpend) == [d];
  }

  /** The kept operations, grouped: Friday's single expense of 645.78 and
      Tuesday's of 160.89; Monday's and Wednesday's amounts are income. */
  lemma FixtureSpending()
    ensures WeekdaySpending([Dated("Tuesday", Some(-16089)), Dated("Monday", Some(500000)),
                             Dated("Wednesday", Some(2360)), Dated("Friday", Some(-64578))])
         == [DaySpending("Friday", 64578), DaySpending("Tuesday", 16089)]
  {
    var tue, mon, wed, fri := Dated("Tuesday", Some(-16089)), Dated("Monday", Some(500000)),
                              Dated("Wednesday", Some(2360)), Dated("Friday", Some(-64578));
    OuterExpenses(tue, mon, wed, fri);
    ExpensesOnly([tue, mon, wed, fri]);
    assert Less("Friday", "Tuesday");
    TwoExpenseDays(tue, fri);
  }
}
