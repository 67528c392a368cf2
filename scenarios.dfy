/** The worked example of the lock: February 2025, one holiday on the 14th,
    a monthly salary of 28000 and every regular day approved present. The
    denominator is the number of non-Sunday days, holidays included, from
    max(join date, 1 February) through 28 February. */
module Scenarios {
  import opened Calendar
  import opened DateKeys
  import opened Records
  import opened MonthRange
  import opened Eligibility
  import opened Money
  import opened Earnings

  /** February 2025 runs from day 20120 (a Saturday) through day 20147. */
  lemma February2025()
    ensures MonthRangeUTC(2025, 2) == Period(CivilDate(2025, 2, 1), CivilDate(2025, 2, 28))
    ensures DayNumber(CivilDate(2025, 2, 1)) == 20120 && DayOfWeek(CivilDate(2025, 2, 1)) == 6
    ensures DayNumber(CivilDate(2025, 2, 28)) == 20147
    ensures DayNumber(CivilDate(2025, 2, 15)) == 20134 && DayOfWeek(CivilDate(2025, 2, 14)) == 5
  {
    assert DaysInMonth(2025, 2) == 28;
  }

  /** A calendar whose span, from the effective start through the end, is
      k whole weeks has 6k days. */
  lemma CalendarOfWeeks(joinDate: CivilDate, period: Period, holidays: set<string>, k: nat)
    requires ValidDate(joinDate) && ValidDate(period.start) && ValidDate(period.end)
    requires DayNumber(period.end) == DayNumber(EffectiveStart(joinDate, period.start)) + 7 * k - 1
    ensures |EligibilityCalendar(joinDate, period, holidays)| == 6 * k
  {
    var lo := DayNumber(EffectiveStart(joinDate, period.start));
    CalendarSize(joinDate, period, holidays);
    WholeWeeks(lo, k);
  }

  /** Whoever joined by 1 February has 24 eligible days in February 2025,
      whatever the holidays: the month is four whole weeks. */
  lemma FullMonthDays(joinDate: CivilDate, holidays: set<string>)
    requires ValidDate(joinDate) && DayNumber(joinDate) <= DayNumber(CivilDate(2025, 2, 1))
    ensures |EligibilityCalendar(joinDate, MonthRangeUTC(2025, 2), holidays)| == 24
  {
    February2025();
    var p := MonthRangeUTC(2025, 2);
    assert EffectiveStart(joinDate, p.start) == p.start;
    CalendarOfWeeks(joinDate, p, holidays, 4);
  }

  /** The key of 14 February 2025. */
  lemma FourteenthKey()
    ensures ToDateStr(CivilDate(2025, 2, 14)) == "2025-02-14"
  {
    YearText();
    MonthText();
    DayText();
    KeyDisplay("2025", "02", "14");
  }

  lemma YearText()
    ensures IntToDecimal(2025) == "2025"
  {
    assert NatToDecimal(20) == "20";
    assert NatToDecimal(202) == "20" + "2";
  }

  lemma MonthText()
    ensures TwoDigits(2) == "02"
  {
    assert IntToDecimal(2) == "2";
  }

  lemma DayText()
    ensures TwoDigits(14) == "14"
  {
    assert IntToDecimal(14) == "14";
  }

  /** With the holiday row for the 14th, the calendar of whoever joined by
      the 14th holds that Friday flagged as a holiday. */
  lemma FourteenthIsHoliday(joinDate: CivilDate)
    requires ValidDate(joinDate) && DayNumber(joinDate) <= DayNumber(CivilDate(2025, 2, 14))
    ensures EligibleDay("2025-02-14", true) in EligibilityCalendar(joinDate, MonthRangeUTC(2025, 2), {"2025-02-14"})
  {
    February2025();
    FourteenthKey();
    CalendarComplete(joinDate, MonthRangeUTC(2025, 2), {"2025-02-14"}, CivilDate(2025, 2, 14));
  }

  /** Whoever joined on 15 February, a Saturday, has the last two weeks:
      12 days. */
  lemma MidMonthJoinerDays(joinDate: CivilDate, holidays: set<string>)
    requires ValidDate(joinDate) && DayNumber(joinDate) == DayNumber(CivilDate(2025, 2, 15))
    ensures |EligibilityCalendar(joinDate, MonthRangeUTC(2025, 2), holidays)| == 12
  {
    February2025();
    var p := MonthRangeUTC(2025, 2);
    assert EffectiveStart(joinDate, p.start) == joinDate;
    CalendarOfWeeks(joinDate, p, holidays, 2);
  }

  /** The per-day rates and grosses of the two calendars: 28000 over 24
      days is 1166.666667 a day, and 24 of those round back to 28000.00; over
      12 days it is 2333.333333, and 12 of those, 27999.999996, round to
      28000.00 as well. */
  lemma FebruaryRates()
    ensures Round6(28000.0 / 24.0) == 1166.666667
    ensures Round2(Pay(1166.666667, 24.0)) == 28000.0
    ensures Round6(28000.0 / 12.0) == 2333.333333
    ensures Round2(Pay(2333.333333, 12.0)) == 28000.0
  {
    assert (28000.0 / 24.0 * 1000000.0 + 0.5).Floor == 1166666667;
    assert (Pay(1166.666667, 24.0) * 100.0 + 0.5).Floor == 2800000;
    assert (28000.0 / 12.0 * 1000000.0 + 0.5).Floor == 2333333333;
    assert (Pay(2333.333333, 12.0) * 100.0 + 0.5).Floor == 2800000;
  }

  /** Every regular (non-holiday) day of the calendar has an approved
      `present` row. */
  predicate AllRegularPresent(days: seq<EligibleDay>, att: map<string, AttendanceRow>) {
    forall i :: 0 <= i < |days| && !days[i].isHoliday ==>
      days[i].date in att && att[days[i].date].approval == Approved && att[days[i].date].status == Present
  }

  /** A gross of  days * rate  for days that are all paid in full. */
  lemma FullPay(p: Profile, days: seq<EligibleDay>, att: map<string, AttendanceRow>, perDay: real, cycleId: nat)
    requires AllRegularPresent(days, att)
    ensures CreditRow(p, days, att, perDay, cycleId) ==
      Earned(EarningRow(cycleId, p.id, p.monthlySalary, |days|, perDay, Round2(Pay(perDay, |days| as real))))
  {
    AllPresentEarnsEveryDay(days, att, perDay);
  }

  /** The row of a non-empty calendar once its per-day rate is known. */
  lemma AtRate(p: Profile, days: seq<EligibleDay>, att: map<string, AttendanceRow>, n: nat, rate: real, cycleId: nat)
    requires |days| == n > 0 && Round6(p.monthlySalary / n as real) == rate
    ensures EarningFor(p, days, att, cycleId) == CreditRow(p, days, att, rate, cycleId)
  {
  }

  /** The example: an employee who joined before February, paid 28000 a
      month, gets one row of 24 eligible days at 1166.666667 a day and a
      gross of 28000.00; the holiday on the 14th is paid without a row. */
  lemma FullMonthExample(p: Profile, holidays: set<string>, att: map<string, AttendanceRow>, cycleId: nat)
    requires ValidDate(p.joinDate) && DayNumber(p.joinDate) <= DayNumber(CivilDate(2025, 2, 1))
    requires p.monthlySalary == 28000.0
    requires AllRegularPresent(EligibilityCalendar(p.joinDate, MonthRangeUTC(2025, 2), holidays), att)
    ensures EarningFor(p, EligibilityCalendar(p.joinDate, MonthRangeUTC(2025, 2), holidays), att, cycleId) ==
      Earned(EarningRow(cycleId, p.id, 28000.0, 24, 1166.666667, 28000.0))
  {
    var days := EligibilityCalendar(p.joinDate, MonthRangeUTC(2025, 2), holidays);
    FullMonthDays(p.joinDate, holidays);
    FebruaryRates();
    AtRate(p, days, att, 24, 1166.666667, cycleId);
    FullPay(p, days, att, 1166.666667, cycleId);
  }

  /** The same month for an employee who joined on 15 February: 12 days at
      2333.333333, and again a gross of 28000.00. */
  lemma MidMonthExample(p: Profile, holidays: set<string>, att: map<string, AttendanceRow>, cycleId: nat)
    requires p.joinDate == CivilDate(2025, 2, 15) && p.monthlySalary == 28000.0
    requires AllRegularPresent(EligibilityCalendar(p.joinDate, MonthRangeUTC(2025, 2), holidays), att)
    ensures EarningFor(p, EligibilityCalendar(p.joinDate, MonthRangeUTC(2025, 2), holidays), att, cycleId) ==
      Earned(EarningRow(cycleId, p.id, 28000.0, 12, 2333.333333, 28000.0))
  {
    var days := EligibilityCalendar(p.joinDate, MonthRangeUTC(2025, 2), holidays);
    MidMonthJoinerDays(p.joinDate, holidays);
    FebruaryRates();
    AtRate(p, days, att, 12, 2333.333333, cycleId);
    FullPay(p, days, att, 2333.333333, cycleId);
  }
}
