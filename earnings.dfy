/** Earnings computer: the credit of each eligible day, the credit loop with
    its mid-run abort on a pending attendance row, and the earnings row of
    one profile (lock-salary.js lines 119-134, lock_salary_cycle.js lines
    113-156). */
module Earnings {
  import opened Calendar
  import opened Records
  import opened Money
  import opened MonthRange
  import opened Eligibility

  /** The credit loop either aborts on a pending row or yields a sum. */
  datatype CreditResult = Aborted | Total(sum: real)

  /** An approved row credits by status; every other status earns nothing. */
  function StatusCredit(status: Status, perDay: real): real {
    match status
    case Present => perDay
    case HalfDay => perDay * 0.5
    case _ => 0.0
  }

  /** The credit of one eligible day, given the attendance map. */
  function DayCredit(day: EligibleDay, att: map<string, AttendanceRow>, perDay: real): CreditResult {
    if day.isHoliday then Total(perDay)
    else if day.date !in att then Total(0.0)
    else
      match att[day.date].approval
      case Pending => Aborted
      case Denied => Total(0.0)
      case Approved => Total(StatusCredit(att[day.date].status, perDay))
  }

  /** The credits of the days in order; the first pending regular day
      aborts the whole sum. */
  function CreditSum(days: seq<EligibleDay>, att: map<string, AttendanceRow>, perDay: real): CreditResult
    decreases |days|
  {
    if days == [] then Total(0.0)
    else
      match CreditSum(days[..|days| - 1], att, perDay)
      case Aborted => Aborted
      case Total(s) =>
        match DayCredit(days[|days| - 1], att, perDay)
        case Aborted => Aborted
        case Total(c) => Total(s + c)
  }

  // ---------------------------------------------------------------------------
  // Reference definitions: paid units and the pending test.

  /** A regular day whose attendance row is still awaiting approval. */
  predicate PendingRegular(day: EligibleDay, att: map<string, AttendanceRow>) {
    !day.isHoliday && day.date in att && att[day.date].approval == Pending
  }

  /** Some day of the list is a pending regular day. */
  predicate HasPendingRegular(days: seq<EligibleDay>, att: map<string, AttendanceRow>)
    decreases |days|
  {
    days != [] && (HasPendingRegular(days[..|days| - 1], att) || PendingRegular(days[|days| - 1], att))
  }

  /** How many per-day rates a day is worth: 1 for a holiday or an approved
      present day, 1/2 for an approved half day, 0 otherwise. */
  function Units(day: EligibleDay, att: map<string, AttendanceRow>): (u: real)
    ensures u == 0.0 || u == 0.5 || u == 1.0
    ensures day.isHoliday ==> u == 1.0
  {
    if day.isHoliday then 1.0
    else if day.date in att && att[day.date].approval == Approved then
      (match att[day.date].status
       case Present => 1.0
       case HalfDay => 0.5
       case _ => 0.0)
    else 0.0
  }

  function PaidUnits(days: seq<EligibleDay>, att: map<string, AttendanceRow>): real
    decreases |days|
  {
    if days == [] then 0.0 else PaidUnits(days[..|days| - 1], att) + Units(days[|days| - 1], att)
  }

  function HolidayCount(days: seq<EligibleDay>): nat
    decreases |days|
  {
    if days == [] then 0 else HolidayCount(days[..|days| - 1]) + (if days[|days| - 1].isHoliday then 1 else 0)
  }

  // ---------------------------------------------------------------------------
  // What the credits add up to

  /** The pay for `units` days at the rate `perDay`. */
  function Pay(perDay: real, units: real): real {
    perDay * units
  }

  /** What a day pays when it does not abort. */
  function DayPay(day: EligibleDay, att: map<string, AttendanceRow>, perDay: real): real {
    if day.isHoliday then perDay
    else if day.date in att && att[day.date].approval == Approved then StatusCredit(att[day.date].status, perDay)
    else 0.0
  }

  function PaidAmount(days: seq<EligibleDay>, att: map<string, AttendanceRow>, perDay: real): real
    decreases |days|
  {
    if days == [] then 0.0 else PaidAmount(days[..|days| - 1], att, perDay) + DayPay(days[|days| - 1], att, perDay)
  }

  /** A day pays its units times the per-day rate. */
  lemma DayPayIsUnits(day: EligibleDay, att: map<string, AttendanceRow>, perDay: real)
    ensures DayPay(day, att, perDay) == Pay(perDay, Units(day, att))
  {
  }

  /** The days pay their paid units times the per-day rate. */
  lemma {:induction false} PaidAmountIsUnits(days: seq<EligibleDay>, att: map<string, AttendanceRow>, perDay: real)
    ensures PaidAmount(days, att, perDay) == Pay(perDay, PaidUnits(days, att))
    decreases |days|
  {
    if days != [] {
      var init, last := days[..|days| - 1], days[|days| - 1];
      PaidAmountIsUnits(init, att, perDay);
      DayPayIsUnits(last, att, perDay);
      Distribute(perDay, PaidUnits(init, att), Units(last, att));
    }
  }

  /** The credit loop aborts exactly when some regular day is pending;
      otherwise the sum is what the days pay. */
  lemma {:induction false} CreditSumIsPay(days: seq<EligibleDay>, att: map<string, AttendanceRow>, perDay: real)
    ensures HasPendingRegular(days, att) ==> CreditSum(days, att, perDay) == Aborted
    ensures !HasPendingRegular(days, att) ==> CreditSum(days, att, perDay) == Total(PaidAmount(days, att, perDay))
    decreases |days|
  {
    if days != [] {
      CreditSumIsPay(days[..|days| - 1], att, perDay);
    }
  }

  /** The credit loop aborts exactly when some regular day is pending;
      otherwise the sum is the per-day rate times the paid units. */
  lemma CreditSumIsUnits(days: seq<EligibleDay>, att: map<string, AttendanceRow>, perDay: real)
    ensures HasPendingRegular(days, att) ==> CreditSum(days, att, perDay) == Aborted
    ensures !HasPendingRegular(days, att) ==> CreditSum(days, att, perDay) == Total(Pay(perDay, PaidUnits(days, att)))
  {
    CreditSumIsPay(days, att, perDay);
    PaidAmountIsUnits(days, att, perDay);
  }

  /** The recursive pending test finds exactly the pending regular days. */
  lemma {:induction false} HasPendingRegularIff(days: seq<EligibleDay>, att: map<string, AttendanceRow>)
    ensures HasPendingRegular(days, att) <==> exists i :: 0 <= i < |days| && PendingRegular(days[i], att)
    decreases |days|
  {
    if days != [] {
      var init := days[..|days| - 1];
      HasPendingRegularIff(init, att);
      if exists i :: 0 <= i < |days| && PendingRegular(days[i], att) {
        var i :| 0 <= i < |days| && PendingRegular(days[i], att);
        if i < |init| {
          assert init[i] == days[i];
        }
      }
      if exists i :: 0 <= i < |init| && PendingRegular(init[i], att) {
        var i :| 0 <= i < |init| && PendingRegular(init[i], att);
        assert days[i] == init[i];
      }
    }
  }

  lemma Distribute(a: real, b: real, c: real)
    ensures Pay(a, b + c) == Pay(a, b) + Pay(a, c)
  {
  }

  /** Once the prefix has aborted, the whole sum aborts. */
  lemma {:induction false} AbortIsFinal(days: seq<EligibleDay>, k: nat, att: map<string, AttendanceRow>, perDay: real)
    requires k <= |days|
    requires CreditSum(days[..k], att, perDay) == Aborted
    ensures CreditSum(days, att, perDay) == Aborted
    decreases |days| - k
  {
    if k < |days| {
      assert days[..k + 1][..k] == days[..k];
      AbortIsFinal(days, k + 1, att, perDay);
    } else {
      assert days[..k] == days;
    }
  }

  /** Each day is worth between zero and one per-day rate, and a holiday
      always one. */
  lemma {:induction false} PaidUnitsBounds(days: seq<EligibleDay>, att: map<string, AttendanceRow>)
    ensures HolidayCount(days) as real <= PaidUnits(days, att) <= |days| as real
    ensures 0.0 <= PaidUnits(days, att)
    decreases |days|
  {
    if days != [] {
      PaidUnitsBounds(days[..|days| - 1], att);
    }
  }

  /** With a non-negative rate the sum lies between 0 and one rate per day. */
  lemma CreditSumBounds(days: seq<EligibleDay>, att: map<string, AttendanceRow>, perDay: real)
    requires perDay >= 0.0
    ensures CreditSum(days, att, perDay).Total? ==>
      0.0 <= CreditSum(days, att, perDay).sum <= Pay(perDay, |days| as real)
  {
    CreditSumIsUnits(days, att, perDay);
    PaidUnitsBounds(days, att);
    RateTimesUnits(perDay, PaidUnits(days, att), |days| as real);
  }

  lemma RateTimesUnits(rate: real, u: real, n: real)
    requires rate >= 0.0 && 0.0 <= u <= n
    ensures 0.0 <= Pay(rate, u) <= Pay(rate, n)
  {
    assert rate * (n - u) >= 0.0;
  }

  /** The attendance rows for holiday dates never matter. */
  lemma {:induction false} HolidaysIgnoreAttendance(days: seq<EligibleDay>, a: map<string, AttendanceRow>,
                                                   b: map<string, AttendanceRow>, perDay: real)
    requires forall i :: 0 <= i < |days| && !days[i].isHoliday ==>
      (days[i].date in a <==> days[i].date in b) && (days[i].date in a ==> a[days[i].date] == b[days[i].date])
    ensures CreditSum(days, a, perDay) == CreditSum(days, b, perDay)
    decreases |days|
  {
    if days != [] {
      var init := days[..|days| - 1];
      assert forall i :: 0 <= i < |init| ==> init[i] == days[i];
      HolidaysIgnoreAttendance(init, a, b, perDay);
    }
  }

  /** When every regular day has an approved present row, the sum is one
      per-day rate for every eligible day, holidays included. */
  lemma {:induction false} AllPresentEarnsEveryDay(days: seq<EligibleDay>, att: map<string, AttendanceRow>, perDay: real)
    requires forall i :: 0 <= i < |days| && !days[i].isHoliday ==>
      days[i].date in att && att[days[i].date].approval == Approved && att[days[i].date].status == Present
    ensures CreditSum(days, att, perDay) == Total(|days| as real * perDay)
    decreases |days|
  {
    if days != [] {
      var init := days[..|days| - 1];
      assert forall i :: 0 <= i < |init| ==> init[i] == days[i];
      AllPresentEarnsEveryDay(init, att, perDay);
    }
  }

  // ---------------------------------------------------------------------------
  // The credit loop

  /** `for (const day of days)`: accumulate credits in order, returning
      Aborted as soon as a regular day's row is pending. */
  method AccumulateCredits(days: seq<EligibleDay>, att: map<string, AttendanceRow>, perDay: real)
    returns (r: CreditResult)
    ensures r == CreditSum(days, att, perDay)
  {
    var gross := 0.0;
    for i := 0 to |days|
      invariant CreditSum(days[..i], att, perDay) == Total(gross)
    {
      var day := days[i];
      assert days[..i + 1][..i] == days[..i];
      if day.isHoliday {
        gross := gross + perDay;
        continue;
      }
      if day.date !in att {
        continue;
      }
      var row := att[day.date];
      if row.approval == Pending {
        AbortIsFinal(days, i + 1, att, perDay);
        return Aborted;
      }
      if row.approval == Denied {
        continue;
      }
      if row.status == Present {
        gross := gross + perDay;
      } else if row.status == HalfDay {
        gross := gross + perDay * 0.5;
      }
    }
    assert days[..|days|] == days;
    return Total(gross);
  }

  // ---------------------------------------------------------------------------
  // One profile

  datatype ProfileOutcome = Skipped | AbortedRun | Earned(row: EarningRow)

  /** The credit loop and the row of a profile whose calendar `days` is not
      empty, at the per-day rate `perDay`. */
  function CreditRow(p: Profile, days: seq<EligibleDay>, att: map<string, AttendanceRow>,
                     perDay: real, cycleId: nat): ProfileOutcome {
    match CreditSum(days, att, perDay)
    case Aborted => AbortedRun
    case Total(s) => Earned(EarningRow(cycleId, p.id, p.monthlySalary, |days|, perDay, Round2(s)))
  }

  /** What the body of `for (const p of profiles)` yields for one profile
      once its calendar is built: no row when the calendar is empty, an abort
      when a regular day is pending, otherwise its earnings row. */
  function EarningFor(p: Profile, days: seq<EligibleDay>, att: map<string, AttendanceRow>, cycleId: nat): ProfileOutcome {
    if |days| == 0 then Skipped
    else CreditRow(p, days, att, Round6(p.monthlySalary / |days| as real), cycleId)
  }

  /** The same, with the profile's own calendar for the period. */
  function ProfileEarning(p: Profile, period: Period, holidays: set<string>,
                          attRows: seq<AttendanceRow>, cycleId: nat): ProfileOutcome
    requires ValidDate(p.joinDate) && ValidDate(period.start) && ValidDate(period.end)
  {
    EarningFor(p, EligibilityCalendar(p.joinDate, period, holidays), IndexByDate(attRows), cycleId)
  }

  /** The row at a given rate: aborted exactly when a regular day is
      pending, otherwise the employee's row for the cycle with that rate and
      the rate times the paid units, rounded to cents, as gross. */
  lemma CreditRowMeaning(p: Profile, days: seq<EligibleDay>, att: map<string, AttendanceRow>,
                         perDay: real, cycleId: nat)
    ensures CreditRow(p, days, att, perDay, cycleId).AbortedRun? <==> HasPendingRegular(days, att)
    ensures !HasPendingRegular(days, att) ==>
      CreditRow(p, days, att, perDay, cycleId) ==
        Earned(EarningRow(cycleId, p.id, p.monthlySalary, |days|, perDay, Round2(Pay(perDay, PaidUnits(days, att)))))
  {
    AbortsIffPending(p, days, att, perDay, cycleId);
    if !HasPendingRegular(days, att) {
      CreditSumIsUnits(days, att, perDay);
      RowOfTotal(p, days, att, perDay, cycleId, Pay(perDay, PaidUnits(days, att)));
    }
  }

  lemma AbortsIffPending(p: Profile, days: seq<EligibleDay>, att: map<string, AttendanceRow>,
                         perDay: real, cycleId: nat)
    ensures CreditRow(p, days, att, perDay, cycleId).AbortedRun? <==> HasPendingRegular(days, att)
  {
    CreditSumIsPay(days, att, perDay);
  }

  lemma RowOfTotal(p: Profile, days: seq<EligibleDay>, att: map<string, AttendanceRow>,
                   perDay: real, cycleId: nat, sum: real)
    requires CreditSum(days, att, perDay) == Total(sum)
    ensures CreditRow(p, days, att, perDay, cycleId) ==
      Earned(EarningRow(cycleId, p.id, p.monthlySalary, |days|, perDay, Round2(sum)))
  {
  }

  /** The outcome in terms of the reference definitions: skipped exactly
      when the calendar is empty, aborted exactly when a regular day of it is
      pending, and otherwise a row for the employee and the cycle whose
      per-day rate is the salary over the eligible days rounded to six
      decimals and whose gross is that rate times the paid units, rounded to
      cents. */
  lemma EarningForMeaning(p: Profile, days: seq<EligibleDay>, att: map<string, AttendanceRow>, cycleId: nat)
    ensures var o := EarningFor(p, days, att, cycleId);
      && (o.Skipped? <==> |days| == 0)
      && (o.AbortedRun? <==> |days| > 0 && HasPendingRegular(days, att))
      && (o.Earned? ==>
            && o.row.cycleId == cycleId && o.row.employeeId == p.id
            && o.row.monthlySalary == p.monthlySalary
            && o.row.totalEligibleWorkingDays == |days| > 0
            && o.row.perDaySalary == Round6(p.monthlySalary / |days| as real)
            && o.row.grossEarned == Round2(Pay(o.row.perDaySalary, PaidUnits(days, att))))
  {
    if |days| > 0 {
      CreditRowMeaning(p, days, att, Round6(p.monthlySalary / |days| as real), cycleId);
    }
  }

  /** At a non-negative rate the gross lies between zero and the rounded
      pay for every eligible day. */
  lemma CreditRowBounds(p: Profile, days: seq<EligibleDay>, att: map<string, AttendanceRow>,
                        perDay: real, cycleId: nat)
    requires perDay >= 0.0
    ensures var o := CreditRow(p, days, att, perDay, cycleId);
      o.Earned? ==> 0.0 <= o.row.grossEarned <= Round2(Pay(perDay, |days| as real))
  {
    var r := CreditSum(days, att, perDay);
    if r.Total? {
      SumBounded(days, att, perDay, r.sum);
      RoundedBounds(r.sum, Pay(perDay, |days| as real));
    }
  }

  lemma SumBounded(days: seq<EligibleDay>, att: map<string, AttendanceRow>, perDay: real, sum: real)
    requires perDay >= 0.0 && CreditSum(days, att, perDay) == Total(sum)
    ensures 0.0 <= sum <= Pay(perDay, |days| as real)
  {
    CreditSumBounds(days, att, perDay);
  }

  /** Rounding to cents keeps a value in [0, hi] within [0, Round2(hi)]. */
  lemma RoundedBounds(x: real, hi: real)
    requires 0.0 <= x <= hi
    ensures 0.0 <= Round2(x) <= Round2(hi)
  {
    ToFixedMonotone(x, hi, 100);
    ToFixedMonotone(0.0, x, 100);
    ToFixedKeepsGrid(0.0, 100);
  }

  /** A non-negative salary gives a non-negative per-day rate and a gross
      between zero and the rounded pay for every eligible day. */
  lemma EarningForBounds(p: Profile, days: seq<EligibleDay>, att: map<string, AttendanceRow>, cycleId: nat)
    requires p.monthlySalary >= 0.0
    ensures var o := EarningFor(p, days, att, cycleId);
      o.Earned? ==>
        && 0.0 <= o.row.perDaySalary
        && 0.0 <= o.row.grossEarned
        && o.row.grossEarned <= Round2(Pay(o.row.perDaySalary, o.row.totalEligibleWorkingDays as real))
  {
    if |days| > 0 {
      var perDay := Round6(p.monthlySalary / |days| as real);
      assert 0.0 <= p.monthlySalary / |days| as real;
      CreditRowBounds(p, days, att, perDay, cycleId);
    }
  }

  /** An employee who joins after the period ends gets no row. */
  lemma LateJoinerSkipped(p: Profile, period: Period, holidays: set<string>,
                          attRows: seq<AttendanceRow>, cycleId: nat)
    requires ValidDate(p.joinDate) && ValidDate(period.start) && ValidDate(period.end)
    requires DayNumber(p.joinDate) > DayNumber(period.end)
    ensures ProfileEarning(p, period, holidays, attRows, cycleId) == Skipped
  {
    CalendarCharacterization(p.joinDate, period, holidays);
  }
}
