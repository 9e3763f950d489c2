/** The proleptic Gregorian calendar as JavaScript's `Date` counts it:
    months 0..11, day numbers counted from 1970-01-01, weekdays with
    Sunday as 0. */
module Gregorian {

  predicate IsLeapYear(y: int) {
    y % 4 == 0 && (y % 100 != 0 || y % 400 == 0)
  }

  /** Length of month `m` (0 = January) of year `y`. */
  function DaysInMonth(y: int, m: int): (n: int)
    requires 0 <= m < 12
    ensures 28 <= n <= 31
    ensures n == 29 <==> m == 1 && IsLeapYear(y)
  {
    if m == 1 then (if IsLeapYear(y) then 29 else 28)
    else if m == 3 || m == 5 || m == 8 || m == 10 then 30
    else 31
  }

  /** Days from 0000-03-01 to the 1st of March of year `yy`. */
  function YearStart(yy: int): int {
    365 * yy + yy / 4 - yy / 100 + yy / 400
  }

  /** Days from the 1st of March to the 1st of month `mm`, counting months
      from March (0) to February (11). */
  function MonthStart(mm: int): int {
    (153 * mm + 2) / 5
  }

  /** Days from 1970-01-01 to day `d` of month `month` (0..11) of `year`. */
  function CivilDay(year: int, month: int, d: int): int {
    // Count years from March, so that February is the last month of a year.
    if month < 2 then YearStart(year - 1) + MonthStart(month + 10) + d - 1 - 719468
    else YearStart(year) + MonthStart(month - 2) + d - 1 - 719468
  }

  /** Days from 1970-01-01 to day `d` of month `m` of year `y`. A month
      outside 0..11 first carries into the year, as `new Date(y, m, d)`
      does; so does a day outside the month, since the count is linear in `d`. */
  function EpochDay(y: int, m: int, d: int): int {
    CivilDay(y + m / 12, m % 12, d)
  }

  /** `getDay()` of that date: 0 = Sunday .. 6 = Saturday (1970-01-01 was a Thursday). */
  function Weekday(y: int, m: int, d: int): (w: int)
    ensures 0 <= w < 7
  {
    (EpochDay(y, m, d) + 4) % 7
  }

  /** Each of the three leap-year counts steps up exactly at a multiple. */
  lemma LeapStep(y: int)
    ensures y / 4 - (y - 1) / 4 == if y % 4 == 0 then 1 else 0
    ensures y / 100 - (y - 1) / 100 == if y % 100 == 0 then 1 else 0
    ensures y / 400 - (y - 1) / 400 == if y % 400 == 0 then 1 else 0
  {
  }

  /** A multiple of 400 is a multiple of 100. */
  lemma Multiple400(y: int)
    requires y % 400 == 0
    ensures y % 100 == 0
  {
    var k := y / 400;
    assert y == 400 * k;
    assert y == 100 * (4 * k) + 0;
  }

  /** A multiple of 100 is a multiple of 4. */
  lemma Multiple100(y: int)
    requires y % 100 == 0
    ensures y % 4 == 0
  {
    var k := y / 100;
    assert y == 100 * k;
    assert y == 4 * (25 * k) + 0;
  }

  /** A March-based year has 366 days exactly when the February that ends
      it is a leap February. */
  lemma YearStep(y: int)
    ensures YearStart(y) - YearStart(y - 1) == if IsLeapYear(y) then 366 else 365
  {
    LeapStep(y);
    if y % 400 == 0 {
      Multiple400(y);
    }
    if y % 100 == 0 {
      Multiple100(y);
    }
    var a, b, c := y % 4 == 0, y % 100 == 0, y % 400 == 0;
    assert YearStart(y) - YearStart(y - 1)
        == 365 + (if a then 1 else 0) - (if b then 1 else 0) + (if c then 1 else 0);
  }

  /** From March to January, consecutive months start their month's length apart. */
  lemma MonthStep(y: int, mm: int)
    requires 0 <= mm < 11
    ensures MonthStart(mm + 1) - MonthStart(mm) == DaysInMonth(y, (mm + 2) % 12)
  {
    assert mm == 0 || mm == 1 || mm == 2 || mm == 3 || mm == 4 || mm == 5
        || mm == 6 || mm == 7 || mm == 8 || mm == 9 || mm == 10;
  }

  /** Day 0 of the next month is the last day of this one: the first of the
      next month comes exactly `DaysInMonth(y, m)` days after the first of
      this one, which is what `new Date(y, m + 1, 0).getDate()` relies on. */
  lemma MonthLength(y: int, m: int)
    requires 0 <= m < 12
    ensures EpochDay(y, m + 1, 1) - EpochDay(y, m, 1) == DaysInMonth(y, m)
  {
    if m == 1 {
      FebruaryLength(y);
    } else if m == 11 {
      DecemberLength(y);
    } else {
      WithinYearLength(y, m);
    }
  }

  /** February ends the March-based year, so its length is the leap step. */
  lemma FebruaryLength(y: int)
    ensures EpochDay(y, 2, 1) - EpochDay(y, 1, 1) == DaysInMonth(y, 1)
  {
    assert 2 / 12 == 0 && 2 % 12 == 2 && 1 / 12 == 0 && 1 % 12 == 1;
    YearStep(y);
    assert MonthStart(11) == 337 && MonthStart(0) == 0;
  }

  /** December carries into January of the next year. */
  lemma DecemberLength(y: int)
    ensures EpochDay(y, 12, 1) - EpochDay(y, 11, 1) == DaysInMonth(y, 11)
  {
    assert 12 / 12 == 1 && 12 % 12 == 0 && 11 / 12 == 0 && 11 % 12 == 11;
    MonthStep(y, 9);
  }

  /** Every other month and the next lie in one March-based year. */
  lemma WithinYearLength(y: int, m: int)
    requires 0 <= m < 11 && m != 1
    ensures EpochDay(y, m + 1, 1) - EpochDay(y, m, 1) == DaysInMonth(y, m)
  {
    assert m / 12 == 0 && m % 12 == m;
    assert (m + 1) / 12 == 0 && (m + 1) % 12 == m + 1;
    if m == 0 {
      MonthStep(y, 10);
    } else {
      MonthStep(y, m - 2);
    }
  }

  /** Consecutive days are consecutive day numbers. */
  lemma NextDay(y: int, m: int, d: int)
    ensures EpochDay(y, m, d + 1) == EpochDay(y, m, d) + 1
  {
  }

  /** Two fixed points of the count: the epoch, and Wednesday 1 November 2023. */
  lemma Anchors()
    ensures EpochDay(1970, 0, 1) == 0 && Weekday(1970, 0, 1) == 4
    ensures EpochDay(2023, 10, 1) == 19662 && Weekday(2023, 10, 1) == 3
  {
    assert YearStart(1969) == 719162 && MonthStart(10) == 306;
    assert EpochDay(1970, 0, 1) == 0;
    assert YearStart(2023) == 738885 && MonthStart(8) == 245;
    assert EpochDay(2023, 10, 1) == 19662;
  }
}
