/** The analytics page (pages/Analytics.tsx): the expense groups of the
    selected month and the four-month income/expense window ending at it.
    The month filter, the totals and the outflow bar's ratio are the
    `Aggregation` functions; the selected month is a `MonthNav.MonthCursor`. */
module Analytics {
  import opened Types
  import opened Lists
  import opened Aggregation
  import opened MonthNav

  /** `expenseData`: the reduce whose callback, `GroupStep`, looks up the
      group of each expense's category with `find`, adds to it in place, or
      pushes a new group. */
  method ExpenseData(filtered: seq<Transaction>) returns (acc: seq<Group>)
    ensures acc == Grouped(OfKind(filtered, Expense))
    ensures Names(acc) == Dedup(Categories(OfKind(filtered, Expense)))
    ensures Distinct(Names(acc))
    ensures SumValues(acc) == Sum(OfKind(filtered, Expense))
  {
    var selected := OfKind(filtered, Expense);
    acc := [];
    var i := 0;
    while i < |selected|
      invariant 0 <= i <= |selected|
      invariant acc == Grouped(selected[..i])
    {
      assert selected[..i + 1][..i] == selected[..i];
      acc := GroupStep(acc, selected[i]);
      i := i + 1;
    }
    assert selected[..i] == selected;
    GroupedNames(selected);
    GroupedTotal(selected);
  }

  /** One bar pair of the window: a month and its two totals. */
  datatype FlowPoint = FlowPoint(year: int, month: int, income: real, expenses: real)

  /** `historicalFlow`: for i = 3 down to 0, the month `i` before the
      selected one (carried into the year as `new Date(y, m - i, 1)` does)
      with that month's income and expense totals. */
  method HistoricalFlow(ts: seq<Transaction>, year: int, month: int) returns (months: seq<FlowPoint>)
    ensures |months| == 4
    ensures forall k :: 0 <= k < |months| ==>
      0 <= months[k].month < 12 && months[k].year * 12 + months[k].month == year * 12 + month - 3 + k
    ensures forall k :: 0 <= k < |months| ==>
      months[k].income == MonthlyTotal(ts, months[k].month, months[k].year, Income)
      && months[k].expenses == MonthlyTotal(ts, months[k].month, months[k].year, Expense)
    ensures 0 <= month < 12 ==> months[3].year == year && months[3].month == month
  {
    months := [];
    var i := 3;
    while i >= 0
      invariant -1 <= i <= 3
      invariant |months| == 3 - i
      invariant forall k :: 0 <= k < |months| ==>
        0 <= months[k].month < 12 && months[k].year * 12 + months[k].month == year * 12 + month - 3 + k
      invariant forall k :: 0 <= k < |months| ==>
        months[k].income == MonthlyTotal(ts, months[k].month, months[k].year, Income)
        && months[k].expenses == MonthlyTotal(ts, months[k].month, months[k].year, Expense)
    {
      var d := ShiftMonth(year, month, -i);
      var m := d.month;
      var y := d.year;
      var inVal := MonthKindTotal(ts, m, y, Income);
      var exVal := MonthKindTotal(ts, m, y, Expense);
      OnePassTotal(ts, m, y, Income);
      OnePassTotal(ts, m, y, Expense);
      months := months + [FlowPoint(y, m, inVal, exVal)];
      i := i - 1;
    }
    if 0 <= month < 12 {
      IndexDetermines(YearMonth(months[3].year, months[3].month), YearMonth(year, month));
    }
  }
}
