/** Proleptic Gregorian calendar, as JavaScript's Date object uses it in UTC.
    A date is a civil (year, month, day) triple; its day number counts days
    from 1970-01-01, the ECMAScript epoch, and gives the day of the week
    the way Date.prototype.getUTCDay does (0 is Sunday). */
module Calendar {

  datatype CivilDate = CivilDate(year: int, month: int, day: int)

  /** The Gregorian leap-year rule. */
  predicate IsLeapYear(y: int) {
    (y % 4 == 0 && y % 100 != 0) || y % 400 == 0
  }

  function DaysInMonth(y: int, m: int): (n: int)
    requires 1 <= m <= 12
    ensures 28 <= n <= 31
    ensures n == 29 <==> m == 2 && IsLeapYear(y)
    ensures n == 28 <==> m == 2 && !IsLeapYear(y)
    ensures n == 30 <==> m in {4, 6, 9, 11}
  {
    if m == 2 then (if IsLeapYear(y) then 29 else 28)
    else if m == 4 || m == 6 || m == 9 || m == 11 then 30
    else 31
  }

  predicate ValidDate(d: CivilDate) {
    1 <= d.month <= 12 && 1 <= d.day <= DaysInMonth(d.year, d.month)
  }

  /** Days from 1970-01-01 to the first day of year y (ECMAScript DayFromYear). */
  function DayFromYear(y: int): int {
    365 * (y - 1970) + (y - 1969) / 4 - (y - 1901) / 100 + (y - 1601) / 400
  }

  /** Days of year y that come before the first day of month m. */
  function DaysBeforeMonth(y: int, m: int): (n: int)
    requires 1 <= m <= 12
    ensures 0 <= n <= 31 * (m - 1)
  {
    if m == 1 then 0 else DaysBeforeMonth(y, m - 1) + DaysInMonth(y, m - 1)
  }

  /** Days from 1970-01-01 to d (negative before the epoch). */
  function DayNumber(d: CivilDate): int
    requires 1 <= d.month <= 12
  {
    DayFromYear(d.year) + DaysBeforeMonth(d.year, d.month) + d.day - 1
  }

  /** ECMAScript WeekDay(t) for the day number t, which getUTCDay reads:
      0 = Sunday, ..., 6 = Saturday. */
  function WeekDay(t: int): (w: int)
    ensures 0 <= w < 7
  {
    (t + 4) % 7
  }

  function DayOfWeek(d: CivilDate): (w: int)
    requires 1 <= d.month <= 12
    ensures 0 <= w < 7
  {
    WeekDay(DayNumber(d))
  }

  predicate IsSunday(d: CivilDate)
    requires 1 <= d.month <= 12
  {
    DayOfWeek(d) == 0
  }

  /** The calendar day after d: what d.setUTCDate(d.getUTCDate() + 1) does to
      the UTC fields of a date at midnight. (A triple with no valid month is
      left as it is; the engine never holds one.) */
  function NextDay(d: CivilDate): CivilDate {
    if !(1 <= d.month <= 12) then d
    else if d.day < DaysInMonth(d.year, d.month) then CivilDate(d.year, d.month, d.day + 1)
    else if d.month < 12 then CivilDate(d.year, d.month + 1, 1)
    else CivilDate(d.year + 1, 1, 1)
  }

  // ---------------------------------------------------------------------------
  // Arithmetic of the calendar

  lemma FloorStep4(y: int)
    ensures (y - 1968) / 4 - (y - 1969) / 4 == if y % 4 == 0 then 1 else 0
  {
  }

  lemma FloorStep100(y: int)
    ensures (y - 1900) / 100 - (y - 1901) / 100 == if y % 100 == 0 then 1 else 0
  {
  }

  lemma FloorStep400(y: int)
    ensures (y - 1600) / 400 - (y - 1601) / 400 == if y % 400 == 0 then 1 else 0
  {
  }

  /** A year has 366 days exactly when it is a leap year. */
  lemma YearLength(y: int)
    ensures DayFromYear(y + 1) - DayFromYear(y) == if IsLeapYear(y) then 366 else 365
  {
    FloorStep4(y);
    FloorStep100(y);
    FloorStep400(y);
  }

  lemma DaysBeforeDecember(y: int)
    ensures DaysBeforeMonth(y, 12) == if IsLeapYear(y) then 335 else 334
  {
    var leap := if IsLeapYear(y) then 1 else 0;
    assert DaysBeforeMonth(y, 3) == 59 + leap by {
      assert DaysBeforeMonth(y, 2) == 31;
    }
    assert DaysBeforeMonth(y, 6) == 151 + leap by {
      assert DaysBeforeMonth(y, 4) == 90 + leap;
      assert DaysBeforeMonth(y, 5) == 120 + leap;
    }
    assert DaysBeforeMonth(y, 9) == 243 + leap by {
      assert DaysBeforeMonth(y, 7) == 181 + leap;
      assert DaysBeforeMonth(y, 8) == 212 + leap;
    }
    assert DaysBeforeMonth(y, 10) == 273 + leap;
    assert DaysBeforeMonth(y, 11) == 304 + leap;
  }

  /** The months of a year add up to the length of the year. */
  lemma MonthsFillYear(y: int)
    ensures DaysBeforeMonth(y, 12) + DaysInMonth(y, 12) == DayFromYear(y + 1) - DayFromYear(y)
  {
    DaysBeforeDecember(y);
    YearLength(y);
  }

  lemma {:induction false} DaysBeforeMonthMonotone(y: int, m: int, n: int)
    requires 1 <= m < n <= 12
    ensures DaysBeforeMonth(y, m) + DaysInMonth(y, m) <= DaysBeforeMonth(y, n)
  {
    if m + 1 < n {
      DaysBeforeMonthMonotone(y, m, n - 1);
    }
  }

  lemma {:induction false} DayFromYearMonotone(y: int, z: int)
    requires y < z
    ensures DayFromYear(y + 1) <= DayFromYear(z)
    decreases z - y
  {
    if y + 1 < z {
      DayFromYearMonotone(y, z - 1);
      YearLength(z - 1);
    }
  }

  /** A valid date's day number lies within its own year. */
  lemma DayNumberInYear(d: CivilDate)
    requires ValidDate(d)
    ensures DayFromYear(d.year) <= DayNumber(d) < DayFromYear(d.year + 1)
  {
    MonthsFillYear(d.year);
    if d.month < 12 {
      DaysBeforeMonthMonotone(d.year, d.month, 12);
    }
  }

  /** The day number after NextDay is one more: the cursor advances one day. */
  lemma NextDayNumber(d: CivilDate)
    requires ValidDate(d)
    ensures ValidDate(NextDay(d))
    ensures DayNumber(NextDay(d)) == DayNumber(d) + 1
  {
    if d.day == DaysInMonth(d.year, d.month) && d.month == 12 {
      MonthsFillYear(d.year);
    }
  }

  /** Valid dates are ordered by their day numbers like triples
      lexicographically; in particular the day number names one date. */
  lemma DayNumberOrder(a: CivilDate, b: CivilDate)
    requires ValidDate(a) && ValidDate(b)
    requires a.year < b.year || (a.year == b.year && (a.month < b.month || (a.month == b.month && a.day < b.day)))
    ensures DayNumber(a) < DayNumber(b)
  {
    if a.year < b.year {
      DayNumberInYear(a);
      DayNumberInYear(b);
      DayFromYearMonotone(a.year, b.year);
    } else if a.month < b.month {
      DaysBeforeMonthMonotone(a.year, a.month, b.month);
    }
  }

  lemma DayNumberInjective(a: CivilDate, b: CivilDate)
    requires ValidDate(a) && ValidDate(b)
    requires DayNumber(a) == DayNumber(b)
    ensures a == b
  {
    if a != b {
      if a.year < b.year || (a.year == b.year && (a.month < b.month || (a.month == b.month && a.day < b.day))) {
        DayNumberOrder(a, b);
      } else {
        DayNumberOrder(b, a);
      }
    }
  }

  /** 1970-01-01 is day 0 and a Thursday, as in ECMAScript. */
  lemma EpochIsThursday()
    ensures DayNumber(CivilDate(1970, 1, 1)) == 0
    ensures DayOfWeek(CivilDate(1970, 1, 1)) == 4
  {
    assert DayFromYear(1970) == 0;
  }
}
