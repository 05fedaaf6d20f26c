/**
 * Gregorian calendar dates as the date parser and comparison of the
 * validators see them: a date is valid when its month is 1 to 12, its day
 * fits that month (29 February only in leap years) and its year is positive;
 * dates are compared by their position on the day line, the way two
 * timestamps taken at local midnight compare.
 */
module Calendar {

  datatype Date = Date(year: int, month: int, day: int)

  predicate IsLeapYear(y: int)
  {
    (y % 4 == 0 && y % 100 != 0) || y % 400 == 0
  }

  /** Days in month m of year y; 0 for a month outside 1 to 12. */
  function DaysInMonth(y: int, m: int): (n: nat)
    ensures 1 <= m <= 12 ==> 28 <= n <= 31
    ensures m == 2 ==> (n == 29 <==> IsLeapYear(y))
  {
    if m == 2 then (if IsLeapYear(y) then 29 else 28)
    else if m == 4 || m == 6 || m == 9 || m == 11 then 30
    else if 1 <= m <= 12 then 31
    else 0
  }

  /** A real calendar date; the year parser accepts only positive years. */
  predicate IsValidDate(d: Date)
  {
    d.year >= 1 && 1 <= d.month <= 12 && 1 <= d.day <= DaysInMonth(d.year, d.month)
  }

  function YearLength(y: int): nat
  {
    if IsLeapYear(y) then 366 else 365
  }

  /** Days of year y that come before the first of month m: the lengths of months 1 to m - 1. */
  function DaysBeforeMonth(y: int, m: int): nat
    decreases m
  {
    if m <= 1 then 0 else DaysBeforeMonth(y, m - 1) + DaysInMonth(y, m - 1)
  }

  /** Days from 1 January of year 1 to 1 January of year y. */
  function DaysBeforeYear(y: int): nat
    decreases y
  {
    if y <= 1 then 0 else DaysBeforeYear(y - 1) + YearLength(y - 1)
  }

  /** The position of a date on the day line, 1 January of year 1 being day 0. */
  function DayNumber(d: Date): int
  {
    DaysBeforeYear(d.year) + DaysBeforeMonth(d.year, d.month) + d.day - 1
  }

  /** `isAfter(a, b)` for the midnights of two dates. */
  predicate IsAfter(a: Date, b: Date)
  {
    DayNumber(a) > DayNumber(b)
  }

  /** Calendar order: a falls on an earlier day than b. */
  predicate Before(a: Date, b: Date)
  {
    a.year < b.year
    || (a.year == b.year && (a.month < b.month || (a.month == b.month && a.day < b.day)))
  }

  /** The twelve months of a year add up to the year's length. */
  lemma {:induction false} MonthsFillYear(y: int)
    ensures DaysBeforeMonth(y, 13) == YearLength(y)
  {
    assert DaysBeforeMonth(y, 2) == 31;
    assert DaysBeforeMonth(y, 3) == 31 + DaysInMonth(y, 2);
    assert DaysBeforeMonth(y, 4) == DaysBeforeMonth(y, 3) + 31;
    assert DaysBeforeMonth(y, 5) == DaysBeforeMonth(y, 4) + 30;
    assert DaysBeforeMonth(y, 6) == DaysBeforeMonth(y, 5) + 31;
    assert DaysBeforeMonth(y, 7) == DaysBeforeMonth(y, 6) + 30;
    assert DaysBeforeMonth(y, 8) == DaysBeforeMonth(y, 7) + 31;
    assert DaysBeforeMonth(y, 9) == DaysBeforeMonth(y, 8) + 31;
    assert DaysBeforeMonth(y, 10) == DaysBeforeMonth(y, 9) + 30;
    assert DaysBeforeMonth(y, 11) == DaysBeforeMonth(y, 10) + 31;
    assert DaysBeforeMonth(y, 12) == DaysBeforeMonth(y, 11) + 30;
  }

  lemma {:induction false} DaysBeforeMonthMonotone(y: int, m1: int, m2: int)
    requires m1 <= m2
    ensures DaysBeforeMonth(y, m1) <= DaysBeforeMonth(y, m2)
    decreases m2 - m1
  {
    if m1 < m2 {
      DaysBeforeMonthMonotone(y, m1, m2 - 1);
    }
  }

  lemma {:induction false} DaysBeforeYearMonotone(y1: int, y2: int)
    requires y1 <= y2
    ensures DaysBeforeYear(y1) <= DaysBeforeYear(y2)
    decreases y2 - y1
  {
    if y1 < y2 {
      DaysBeforeYearMonotone(y1, y2 - 1);
    }
  }

  /** A valid date lies within its own year on the day line. */
  lemma DayWithinYear(d: Date)
    requires IsValidDate(d)
    ensures DaysBeforeYear(d.year) <= DayNumber(d) < DaysBeforeYear(d.year + 1)
  {
    var y := d.year;
    assert DaysBeforeMonth(y, d.month + 1) == DaysBeforeMonth(y, d.month) + DaysInMonth(y, d.month);
    DaysBeforeMonthMonotone(y, d.month + 1, 13);
    MonthsFillYear(y);
    assert DaysBeforeYear(y + 1) == DaysBeforeYear(y) + YearLength(y);
  }

  lemma BeforeImpliesSmallerDayNumber(a: Date, b: Date)
    requires IsValidDate(a) && IsValidDate(b) && Before(a, b)
    ensures DayNumber(a) < DayNumber(b)
  {
    if a.year < b.year {
      DayWithinYear(a);
      DayWithinYear(b);
      DaysBeforeYearMonotone(a.year + 1, b.year);
    } else if a.month < b.month {
      var y := a.year;
      assert DaysBeforeMonth(y, a.month + 1) == DaysBeforeMonth(y, a.month) + DaysInMonth(y, a.month);
      DaysBeforeMonthMonotone(y, a.month + 1, b.month);
    }
  }

  /**
   * On valid dates the day line orders dates as the calendar does: a smaller
   * day number exactly when the date comes earlier, and the same day number
   * only for the same date.
   */
  lemma DayNumberOrder(a: Date, b: Date)
    requires IsValidDate(a) && IsValidDate(b)
    ensures DayNumber(a) < DayNumber(b) <==> Before(a, b)
    ensures DayNumber(a) == DayNumber(b) <==> a == b
  {
    if Before(a, b) {
      BeforeImpliesSmallerDayNumber(a, b);
    } else if Before(b, a) {
      BeforeImpliesSmallerDayNumber(b, a);
    }
  }
}
