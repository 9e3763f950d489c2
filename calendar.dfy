/** The calendar page (pages/Calendar.tsx): the grid of the viewed month
    and what each day cell shows. */
module Calendar {
  import opened Types
  import opened Lists
  import opened Gregorian
  import opened Aggregation
  import opened MonthNav

  /** `new Date(y, m + 1, 0).getDate()`: day 0 of the next month is the last
      day of this one, so its day of the month is the length of this month. */
  function MonthDays(y: int, m: int): (n: int)
    requires 0 <= m < 12
    ensures n == DaysInMonth(y, m)
  {
    MonthLength(y, m);
    NextDay(y, m + 1, 0);
    EpochDay(y, m + 1, 0) - EpochDay(y, m, 1) + 1
  }

  /** `days`: the numbers of the month's days, 1 to the month's length. */
  function Days(y: int, m: int): (r: seq<int>)
    requires 0 <= m < 12
    ensures |r| == DaysInMonth(y, m)
    ensures forall i :: 0 <= i < |r| ==> r[i] == i + 1
    ensures forall d :: d in r <==> 1 <= d <= DaysInMonth(y, m)
  {
    var r := seq(MonthDays(y, m), i => i + 1);
    assert forall d :: 1 <= d <= DaysInMonth(y, m) ==> d in r by {
      forall d | 1 <= d <= DaysInMonth(y, m) ensures d in r {
        assert r[d - 1] == d;
      }
    }
    r
  }

  /** `padding`: one empty cell per weekday before the 1st (Sunday first). */
  function Padding(y: int, m: int): (r: seq<int>)
    ensures |r| == Weekday(y, m, 1)
    ensures |r| < 7
  {
    seq(Weekday(y, m, 1), i => i)
  }

  predicate OnDay(t: Transaction, day: int, month: int, year: int) {
    t.date.day == day && t.date.month == month && t.date.year == year
  }

  function DayIs(day: int): Transaction -> bool {
    (t: Transaction) => t.date.day == day
  }

  function OnDayIs(day: int, month: int, year: int): Transaction -> bool {
    t => OnDay(t, day, month, year)
  }

  /** `getDayTransactions(day)`: the transactions dated that day of the
      viewed month, in their stored order. */
  function DayTransactions(ts: seq<Transaction>, day: int, month: int, year: int): (r: seq<Transaction>)
    ensures forall i :: 0 <= i < |r| ==> r[i] in ts && OnDay(r[i], day, month, year)
    ensures forall i :: 0 <= i < |ts| && OnDay(ts[i], day, month, year) ==> ts[i] in r
  {
    Filter(ts, OnDayIs(day, month, year))
  }

  /** A day's list is that day's part of the month's list. */
  lemma DayWithinMonth(ts: seq<Transaction>, day: int, month: int, year: int)
    ensures DayTransactions(ts, day, month, year)
         == Filter(MonthlyTransactions(ts, month, year), DayIs(day))
  {
    FilterFilter(ts, MonthIs(month, year), DayIs(day), OnDayIs(day, month, year));
  }

  /** `dayTx.some(t => t.type === kind)`: the day shows an income or an
      expense bar. */
  function HasKind(dayTx: seq<Transaction>, kind: TxKind): (b: bool)
    ensures b <==> exists i :: 0 <= i < |dayTx| && dayTx[i].kind == kind
  {
    if dayTx == [] then false
    else if dayTx[0].kind == kind then true
    else
      var b := HasKind(dayTx[1..], kind);
      assert b <==> exists i :: 0 <= i < |dayTx| && dayTx[i].kind == kind by {
        if b {
          var i :| 0 <= i < |dayTx[1..]| && dayTx[1..][i].kind == kind;
          assert dayTx[i + 1].kind == kind;
        }
        if exists i :: 0 <= i < |dayTx| && dayTx[i].kind == kind {
          var i :| 0 <= i < |dayTx| && dayTx[i].kind == kind;
          assert i != 0 && dayTx[1..][i - 1].kind == kind;
        }
      }
      b
  }

  /** The day total on hover adds every amount of the day, incomes and
      expenses alike, with no sign. */
  lemma DayTotalUnsigned(ts: seq<Transaction>, day: int, month: int, year: int)
    ensures Sum(DayTransactions(ts, day, month, year))
         == Sum(OfKind(DayTransactions(ts, day, month, year), Income))
          + Sum(OfKind(DayTransactions(ts, day, month, year), Expense))
  {
    SumByKind(DayTransactions(ts, day, month, year));
  }

  /** The viewed month (`currentDate`, of which only the year and month are read). */
  class CalendarView {
    var year: int
    var month: int

    ghost predicate Valid()
      reads this
    {
      0 <= month < 12
    }

    constructor (today: Date)
      requires 0 <= today.month < 12
      ensures Valid() && year == today.year && month == today.month
    {
      year := today.year;
      month := today.month;
    }

    /** `prevMonth`: `new Date(year, month - 1)`. */
    method PrevMonth()
      requires Valid()
      modifies this
      ensures Valid()
      ensures year * 12 + month == old(year * 12 + month) - 1
      ensures month == (if old(month) == 0 then 11 else old(month) - 1)
      ensures year == (if old(month) == 0 then old(year) - 1 else old(year))
    {
      var d := ShiftMonth(year, month, -1);
      year, month := d.year, d.month;
    }

    /** `nextMonth`: `new Date(year, month + 1)`. */
    method NextMonth()
      requires Valid()
      modifies this
      ensures Valid()
      ensures year * 12 + month == old(year * 12 + month) + 1
      ensures month == (if old(month) == 11 then 0 else old(month) + 1)
      ensures year == (if old(month) == 11 then old(year) + 1 else old(year))
    {
      var d := ShiftMonth(year, month, 1);
      year, month := d.year, d.month;
    }
  }
}
