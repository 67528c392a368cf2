/** monthRangeUTC (handler) and monthRange (script): the first and last day
    of a month, computed with Date.UTC(year, month - 1, 1) and
    Date.UTC(year, month, 0). Date.UTC normalises a month index outside
    0..11 into the neighbouring years and reads a year 0..99 as 1900..1999;
    both are modelled, since the callers never validate either. */
module MonthRange {
  import opened Calendar

  datatype Period = Period(start: CivilDate, end: CivilDate)

  /** The year Date.UTC uses for its first argument. */
  function UtcYear(year: int): int {
    if 0 <= year <= 99 then 1900 + year else year
  }

  /** ECMAScript MakeDay(year, monthIndex, date): the day number of day
      `date` counted from the first of the (normalised) month, so that date 0
      is the last day of the month before. */
  function MakeDay(year: int, monthIndex: int, date: int): int {
    DayNumber(CivilDate(year + monthIndex / 12, monthIndex % 12 + 1, 1)) + date - 1
  }

  /** MakeDay carries twelve months into the next year, and counts the date
      one day at a time from the first of the month. */
  lemma MakeDayCarries(year: int, monthIndex: int, date: int)
    ensures MakeDay(year, monthIndex + 12, date) == MakeDay(year + 1, monthIndex, date)
    ensures MakeDay(year, monthIndex, date + 1) == MakeDay(year, monthIndex, date) + 1
  {
    assert (monthIndex + 12) / 12 == monthIndex / 12 + 1 && (monthIndex + 12) % 12 == monthIndex % 12;
  }

  function MonthRangeUTC(year: int, month: int): (p: Period)
    ensures ValidDate(p.start) && ValidDate(p.end)
    ensures DayNumber(p.start) == MakeDay(UtcYear(year), month - 1, 1)
    ensures DayNumber(p.end) == MakeDay(UtcYear(year), month, 0)
    ensures p.start.year == p.end.year && p.start.month == p.end.month
    ensures p.start.day == 1 && p.end.day == DaysInMonth(p.end.year, p.end.month)
    ensures 1 <= month <= 12 && !(0 <= year <= 99) ==>
      p.start == CivilDate(year, month, 1) && p.end == CivilDate(year, month, DaysInMonth(year, month))
  {
    var yr := UtcYear(year);
    var y, m := yr + (month - 1) / 12, (month - 1) % 12 + 1;
    MonthEnd(yr, month);
    MonthIndexInYear(month);
    Period(CivilDate(y, m, 1), CivilDate(y, m, DaysInMonth(y, m)))
  }

  /** The month after month index `month - 1` is index `month`, in the same
      year unless it is December. */
  lemma NextMonthIndex(month: int)
    ensures (month - 1) % 12 < 11 ==> month / 12 == (month - 1) / 12 && month % 12 == (month - 1) % 12 + 1
    ensures (month - 1) % 12 == 11 ==> month / 12 == (month - 1) / 12 + 1 && month % 12 == 0
  {
  }

  lemma MonthIndexInYear(month: int)
    ensures 1 <= month <= 12 ==> (month - 1) / 12 == 0 && (month - 1) % 12 == month - 1
  {
  }

  /** The last day of the normalised month is day 0 of the next one. */
  lemma MonthEnd(yr: int, month: int)
    ensures var y, m := yr + (month - 1) / 12, (month - 1) % 12 + 1;
      DayNumber(CivilDate(y, m, DaysInMonth(y, m))) == MakeDay(yr, month, 0)
  {
    var y, m := yr + (month - 1) / 12, (month - 1) % 12 + 1;
    var e := CivilDate(y, m, DaysInMonth(y, m));
    NextDayNumber(e);
    NextMonthIndex(month);
    assert NextDay(e) == CivilDate(yr + month / 12, month % 12 + 1, 1);
  }

  /** Every date of the month lies in the inclusive range, and nothing else
      does: the range is exactly one calendar month. */
  lemma MonthRangeCoversMonth(year: int, month: int, d: CivilDate)
    requires 1 <= month <= 12 && !(0 <= year <= 99)
    requires ValidDate(d)
    ensures var p := MonthRangeUTC(year, month);
      (DayNumber(p.start) <= DayNumber(d) <= DayNumber(p.end)) <==> (d.year == year && d.month == month)
  {
    var p := MonthRangeUTC(year, month);
    if d.year == year && d.month == month {
    } else if d.year < year || (d.year == year && d.month < month) {
      DayNumberOrder(d, p.start);
    } else {
      DayNumberOrder(p.end, d);
    }
  }
}
