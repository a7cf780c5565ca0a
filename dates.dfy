/** Civil dates of the proleptic Gregorian calendar as day numbers, standing in for
    `Date.getTime()` divided by the length of a day. Day 0 is 0001-01-01. */
module Dates {

  datatype Date = Date(year: int, month: int, day: int)

  predicate IsLeap(y: int)
  {
    y % 4 == 0 && (y % 100 != 0 || y % 400 == 0)
  }

  function DaysInMonth(y: int, m: int): (n: int)
    requires 1 <= m <= 12
    ensures 28 <= n <= 31
  {
    if m == 2 then (if IsLeap(y) then 29 else 28)
    else if m in {4, 6, 9, 11} then 30
    else 31
  }

  predicate ValidDate(d: Date)
  {
    1 <= d.month <= 12 && 1 <= d.day <= DaysInMonth(d.year, d.month)
  }

  /** Days from 0001-01-01 to January 1 of year `y`. */
  function DaysBeforeYear(y: int): int
  {
    365 * (y - 1) + (y - 1) / 4 - (y - 1) / 100 + (y - 1) / 400
  }

  /** Days from January 1 to the first of month `m`. */
  function DaysBeforeMonth(y: int, m: int): (n: int)
    requires 1 <= m <= 12
    ensures 0 <= n && n + DaysInMonth(y, m) <= (if IsLeap(y) then 366 else 365)
  {
    var table := [0, 31, 59, 90, 120, 151, 181, 212, 243, 273, 304, 334];
    table[m - 1] + (if m > 2 && IsLeap(y) then 1 else 0)
  }

  function DayNumber(d: Date): int
    requires ValidDate(d)
  {
    DaysBeforeYear(d.year) + DaysBeforeMonth(d.year, d.month) + d.day - 1
  }

  function NewYear(y: int): (d: Date)
    ensures ValidDate(d)
  {
    Date(y, 1, 1)
  }

  lemma FloorStep4(y: int)
    ensures y / 4 - (y - 1) / 4 == if y % 4 == 0 then 1 else 0
  {
  }

  lemma FloorStep100(y: int)
    ensures y / 100 - (y - 1) / 100 == if y % 100 == 0 then 1 else 0
  {
  }

  lemma FloorStep400(y: int)
    ensures y / 400 - (y - 1) / 400 == if y % 400 == 0 then 1 else 0
  {
  }

  /** A year has 366 days when it is a leap year and 365 otherwise. */
  lemma YearLength(y: int)
    ensures DaysBeforeYear(y + 1) - DaysBeforeYear(y) == if IsLeap(y) then 366 else 365
  {
    FloorStep4(y);
    FloorStep100(y);
    FloorStep400(y);
    assert DaysBeforeYear(y + 1) - DaysBeforeYear(y)
        == 365 + (y / 4 - (y - 1) / 4) - (y / 100 - (y - 1) / 100) + (y / 400 - (y - 1) / 400);
    DivisorsOfCentury(y);
  }

  /** Every fourth century year is a century year, and every century year a fourth year. */
  lemma DivisorsOfCentury(y: int)
    ensures y % 400 == 0 ==> y % 100 == 0
    ensures y % 100 == 0 ==> y % 4 == 0
  {
    if y % 400 == 0 {
      FourthCenturyIsCentury(y / 400);
      assert y == 400 * (y / 400);
    }
    if y % 100 == 0 {
      CenturyIsFourth(y / 100);
      assert y == 100 * (y / 100);
    }
  }

  lemma FourthCenturyIsCentury(q: int)
    ensures (400 * q) % 100 == 0
  {
    assert 400 * q == 100 * (4 * q) + 0;
  }

  lemma CenturyIsFourth(q: int)
    ensures (100 * q) % 4 == 0
  {
    assert 100 * q == 4 * (25 * q) + 0;
  }

  /** A valid date falls inside its own year. */
  lemma WithinYear(d: Date)
    requires ValidDate(d)
    ensures DaysBeforeYear(d.year) <= DayNumber(d) < DaysBeforeYear(d.year + 1)
  {
    YearLength(d.year);
  }

  lemma {:induction false} YearsIncrease(a: int, b: int)
    requires a < b
    ensures DaysBeforeYear(a) < DaysBeforeYear(b)
    decreases b - a
  {
    YearLength(a);
    if a + 1 < b {
      YearsIncrease(a + 1, b);
    }
  }

  /** January 1 of a year no later than `d`'s is no later than `d`; of a later year, after it. */
  lemma NewYearOrder(y: int, d: Date)
    requires ValidDate(d)
    ensures y <= d.year ==> DayNumber(NewYear(y)) <= DayNumber(d)
    ensures y > d.year ==> DayNumber(NewYear(y)) > DayNumber(d)
  {
    WithinYear(d);
    if y < d.year {
      YearsIncrease(y, d.year);
    } else if y > d.year {
      if d.year + 1 < y {
        YearsIncrease(d.year + 1, y);
      }
    }
  }

  /** Dates in earlier years come first. */
  lemma YearOrder(d1: Date, d2: Date)
    requires ValidDate(d1) && ValidDate(d2) && d1.year < d2.year
    ensures DayNumber(d1) < DayNumber(d2)
  {
    WithinYear(d1);
    WithinYear(d2);
    if d1.year + 1 < d2.year {
      YearsIncrease(d1.year + 1, d2.year);
    }
  }

  lemma DayNumberExamples()
    ensures DayNumber(Date(2024, 3, 1)) - DayNumber(Date(2024, 2, 28)) == 2
    ensures DayNumber(Date(2025, 1, 1)) - DayNumber(Date(2024, 1, 1)) == 366
    ensures DayNumber(Date(1970, 1, 1)) == 719162
  {
    YearLength(2024);
  }
}
