/** Moving between months. The dashboard and the analytics page keep a
    selected (month, year) and step it by hand; the calendar and the
    four-month window let `new Date(year, month + k)` carry into the year. */
module MonthNav {

  datatype YearMonth = YearMonth(year: int, month: int)

  /** Months since year 0, the linear order in which both schemes move. */
  function MonthIndex(ym: YearMonth): int {
    ym.year * 12 + ym.month
  }

  /** `new Date(year, month + delta)` read back with `getFullYear`/`getMonth`. */
  function ShiftMonth(year: int, month: int, delta: int): (r: YearMonth)
    ensures 0 <= r.month < 12
    ensures MonthIndex(r) == year * 12 + month + delta
  {
    var index := year * 12 + month + delta;
    YearMonth(index / 12, index % 12)
  }

  /** A month is fixed by its index: two in-range months with the same index are equal. */
  lemma IndexDetermines(a: YearMonth, b: YearMonth)
    requires 0 <= a.month < 12 && 0 <= b.month < 12
    requires MonthIndex(a) == MonthIndex(b)
    ensures a == b
  {
  }

  /** The selected month of the dashboard and the analytics page
      (Dashboard.tsx:19-20, Analytics.tsx:14-15). */
  class MonthCursor {
    var month: int
    var year: int

    ghost predicate Valid()
      reads this
    {
      0 <= month < 12
    }

    /** Starts on the month of `today`. */
    constructor (today: YearMonth)
      requires 0 <= today.month < 12
      ensures Valid() && month == today.month && year == today.year
    {
      month := today.month;
      year := today.year;
    }

    /** `changeMonth(offset)`, which the pages call with -1 and +1 only. */
    method ChangeMonth(offset: int)
      requires Valid()
      requires offset == -1 || offset == 1
      modifies this
      ensures Valid()
      ensures year * 12 + month == old(year * 12 + month) + offset
      ensures YearMonth(year, month) == ShiftMonth(old(year), old(month), offset)
    {
      var newMonth := month + offset;
      var newYear := year;
      if newMonth < 0 {
        newMonth := 11;
        newYear := newYear - 1;
      } else if newMonth > 11 {
        newMonth := 0;
        newYear := newYear + 1;
      }
      month := newMonth;
      year := newYear;
      IndexDetermines(YearMonth(year, month), ShiftMonth(old(year), old(month), offset));
    }
  }
}
