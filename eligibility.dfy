/** Eligibility calendar builder: for one employee, walk every date from
    max(join_date, period start) to the period end, skip Sundays, and record
    every other date once, flagged holiday or regular
    (lock-salary.js lines 108-119, lock_salary_cycle.js lines 91-113). */
module Eligibility {
  import opened Calendar
  import opened DateKeys
  import opened MonthRange

  /** One entry of the `days` list: { date, isHoliday }. */
  datatype EligibleDay = EligibleDay(date: string, isHoliday: bool)

  /** The walk of the cursor: d holds the UTC calendar fields of the Date
      whose day number (time value) is t; every step advances both by one
      day until t passes endT, keeping the dates that are not Sundays. */
  function WalkDays(d: CivilDate, t: int, endT: int): seq<CivilDate>
    decreases endT - t
  {
    if t > endT then []
    else (if WeekDay(t) == 0 then [] else [d]) + WalkDays(NextDay(d), t + 1, endT)
  }

  /** The non-Sunday dates from `from` through `end`, in calendar order. */
  function EligibleDates(from: CivilDate, end: CivilDate): seq<CivilDate>
    requires ValidDate(from) && ValidDate(end)
  {
    WalkDays(from, DayNumber(from), DayNumber(end))
  }

  function Mark(d: CivilDate, holidays: set<string>): EligibleDay {
    EligibleDay(ToDateStr(d), ToDateStr(d) in holidays)
  }

  /** Each date becomes its key, flagged when the key is in the holiday set. */
  function MarkDays(ds: seq<CivilDate>, holidays: set<string>): (days: seq<EligibleDay>)
    ensures |days| == |ds|
    ensures forall i :: 0 <= i < |ds| ==> days[i] == Mark(ds[i], holidays)
  {
    seq(|ds|, i requires 0 <= i < |ds| => Mark(ds[i], holidays))
  }

  lemma MarkDaysAppend(ds: seq<CivilDate>, d: CivilDate, holidays: set<string>)
    ensures MarkDays(ds + [d], holidays) == MarkDays(ds, holidays) + [Mark(d, holidays)]
  {
  }

  /** joinDate > start ? joinDate : start, comparing the two midnights. */
  function EffectiveStart(joinDate: CivilDate, start: CivilDate): (e: CivilDate)
    requires ValidDate(joinDate) && ValidDate(start)
    ensures ValidDate(e)
    ensures DayNumber(e) >= DayNumber(joinDate) && DayNumber(e) >= DayNumber(start)
    ensures e == joinDate || e == start
  {
    if DayNumber(joinDate) > DayNumber(start) then joinDate else start
  }

  /** The `days` list the source builds for one employee. */
  function EligibilityCalendar(joinDate: CivilDate, period: Period, holidays: set<string>): seq<EligibleDay>
    requires ValidDate(joinDate) && ValidDate(period.start) && ValidDate(period.end)
  {
    MarkDays(EligibleDates(EffectiveStart(joinDate, period.start), period.end), holidays)
  }

  /** a is an earlier day than b. */
  predicate Before(a: CivilDate, b: CivilDate) {
    1 <= a.month <= 12 && 1 <= b.month <= 12 && DayNumber(a) < DayNumber(b)
  }

  /** Strictly increasing in time. */
  predicate Chronological(ds: seq<CivilDate>) {
    forall i, j :: 0 <= i < j < |ds| ==> Before(ds[i], ds[j])
  }

  /** Number of non-Sunday day numbers n with lo <= n <= hi. */
  function NonSundayCount(lo: int, hi: int): (c: nat)
    decreases hi - lo
  {
    if lo > hi then 0 else (if WeekDay(lo) == 0 then 0 else 1) + NonSundayCount(lo + 1, hi)
  }

  /** The cursor loop: the Date d runs from `from` to `end` one day at a
      time (t is its time value in days, which the comparison with `end` and
      getUTCDay read); Sundays are skipped, every other date is pushed once
      and counted. */
  method BuildCalendar(from: CivilDate, end: CivilDate, holidays: set<string>)
    returns (days: seq<EligibleDay>, totalEligible: nat)
    requires ValidDate(from) && ValidDate(end)
    ensures days == MarkDays(EligibleDates(from, end), holidays)
    ensures totalEligible == |days|
  {
    days, totalEligible := [], 0;
    var d, t, endT := from, DayNumber(from), DayNumber(end);
    ghost var visited: seq<CivilDate> := [];
    while t <= endT
      invariant visited + WalkDays(d, t, endT) == EligibleDates(from, end)
      invariant days == MarkDays(visited, holidays)
      invariant totalEligible == |days|
      decreases endT - t
    {
      var dow := WeekDay(t);
      WalkStep(visited, d, t, endT);
      if dow != 0 {
        var day := MarkDay(d, holidays);
        MarkDaysAppend(visited, d, holidays);
        totalEligible := totalEligible + 1;
        days := days + [day];
        visited := visited + [d];
      }
      d, t := NextDay(d), t + 1;
    }
  }

  /** The entry pushed for a non-Sunday cursor date: its key, flagged
      holiday when the key is in the holiday set. */
  method MarkDay(d: CivilDate, holidays: set<string>) returns (day: EligibleDay)
    ensures day == Mark(d, holidays)
    ensures day.isHoliday <==> day.date in holidays
  {
    var dateStr := ToDateStr(d);
    if dateStr in holidays {
      return EligibleDay(dateStr, true);
    }
    return EligibleDay(dateStr, false);
  }

  /** One step of the walk, seen from the dates already visited. */
  lemma WalkStep(visited: seq<CivilDate>, d: CivilDate, t: int, endT: int)
    requires t <= endT
    ensures visited + WalkDays(d, t, endT) ==
      (if WeekDay(t) == 0 then visited else visited + [d]) + WalkDays(NextDay(d), t + 1, endT)
  {
    var rest := WalkDays(NextDay(d), t + 1, endT);
    if WeekDay(t) == 0 {
      assert WalkDays(d, t, endT) == rest;
    } else {
      assert WalkDays(d, t, endT) == [d] + rest;
    }
  }

  // ---------------------------------------------------------------------------
  // What the calendar is

  /** Every date the walk keeps is a valid non-Sunday between t and endT. */
  lemma {:induction false} WalkDaysMembers(d: CivilDate, t: int, endT: int)
    requires ValidDate(d) && DayNumber(d) == t
    ensures forall x :: x in WalkDays(d, t, endT) ==>
      ValidDate(x) && !IsSunday(x) && t <= DayNumber(x) <= endT
    decreases endT - t
  {
    if t <= endT {
      NextDayNumber(d);
      WalkDaysMembers(NextDay(d), t + 1, endT);
      WalkStep([], d, t, endT);
    }
  }

  /** The kept dates are strictly increasing. */
  lemma {:induction false} WalkDaysIncreasing(d: CivilDate, t: int, endT: int)
    requires ValidDate(d) && DayNumber(d) == t
    ensures Chronological(WalkDays(d, t, endT))
    decreases endT - t
  {
    if t <= endT {
      NextDayNumber(d);
      var rest := WalkDays(NextDay(d), t + 1, endT);
      WalkDaysIncreasing(NextDay(d), t + 1, endT);
      WalkDaysMembers(NextDay(d), t + 1, endT);
      WalkStep([], d, t, endT);
      if WeekDay(t) != 0 {
        ConsIncreasing(d, rest);
      }
    }
  }

  /** Putting a date before increasing later dates keeps the list increasing. */
  lemma ConsIncreasing(d: CivilDate, rest: seq<CivilDate>)
    requires ValidDate(d)
    requires forall x :: x in rest ==> ValidDate(x) && DayNumber(d) < DayNumber(x)
    requires Chronological(rest)
    ensures Chronological([d] + rest)
  {
    var ds := [d] + rest;
    forall i, j | 0 <= i < j < |ds|
      ensures Before(ds[i], ds[j])
    {
      assert ds[j] == rest[j - 1];
      if i > 0 {
        assert ds[i] == rest[i - 1];
        assert Before(rest[i - 1], rest[j - 1]);
      } else {
        assert rest[j - 1] in rest;
      }
    }
  }

  /** Every valid non-Sunday between t and endT is kept. */
  lemma {:induction false} WalkDaysComplete(d: CivilDate, t: int, endT: int, x: CivilDate)
    requires ValidDate(d) && DayNumber(d) == t
    requires ValidDate(x) && t <= DayNumber(x) <= endT && !IsSunday(x)
    ensures x in WalkDays(d, t, endT)
    decreases endT - t
  {
    if DayNumber(x) == t {
      DayNumberInjective(x, d);
    } else {
      NextDayNumber(d);
      WalkDaysComplete(NextDay(d), t + 1, endT, x);
    }
  }

  /** The walk keeps one date per non-Sunday day number in [t, endT]. */
  lemma {:induction false} WalkDaysCount(d: CivilDate, t: int, endT: int)
    ensures |WalkDays(d, t, endT)| == NonSundayCount(t, endT)
    decreases endT - t
  {
    if t <= endT {
      WalkDaysCount(NextDay(d), t + 1, endT);
    }
  }

  /** Any seven consecutive days hold exactly one Sunday, so k whole weeks
      hold 6k eligible days. */
  lemma {:induction false} WholeWeeks(lo: int, k: nat)
    ensures NonSundayCount(lo, lo + 7 * k - 1) == 6 * k
    decreases k
  {
    if k > 0 {
      OneWeek(lo, lo + 7 * k - 1);
      WholeWeeks(lo + 7, k - 1);
    }
  }

  /** The count over the first seven days of a range is six. */
  lemma OneWeek(lo: int, hi: int)
    requires lo + 6 <= hi
    ensures NonSundayCount(lo, hi) == NonSundayCount(lo + 7, hi) + 6
  {
    var w := WeekDay(lo);
    CountStep(lo, hi);
    CountStep(lo + 1, hi);
    CountStep(lo + 2, hi);
    CountStep(lo + 3, hi);
    CountStep(lo + 4, hi);
    CountStep(lo + 5, hi);
    CountStep(lo + 6, hi);
    WeekDayShift(lo, 1);
    WeekDayShift(lo, 2);
    WeekDayShift(lo, 3);
    WeekDayShift(lo, 4);
    WeekDayShift(lo, 5);
    WeekDayShift(lo, 6);
    SixOfSeven(w);
  }

  lemma CountStep(lo: int, hi: int)
    requires lo <= hi
    ensures NonSundayCount(lo, hi) == (if WeekDay(lo) == 0 then 0 else 1) + NonSundayCount(lo + 1, hi)
  {
  }

  lemma WeekDayShift(t: int, j: nat)
    requires j < 7
    ensures WeekDay(t + j) == (WeekDay(t) + j) % 7
  {
  }

  /** Of the seven weekdays after and including w exactly one is Sunday. */
  lemma SixOfSeven(w: int)
    requires 0 <= w < 7
    ensures (if w == 0 then 0 else 1) + (if (w + 1) % 7 == 0 then 0 else 1) + (if (w + 2) % 7 == 0 then 0 else 1) +
            (if (w + 3) % 7 == 0 then 0 else 1) + (if (w + 4) % 7 == 0 then 0 else 1) +
            (if (w + 5) % 7 == 0 then 0 else 1) + (if (w + 6) % 7 == 0 then 0 else 1) == 6
  {
  }

  /** The employee's calendar: its entries are exactly the keys of the
      non-Sunday dates from max(join date, period start) through the period
      end, in increasing order, each key once, flagged holiday exactly when
      the key is in the holiday set. A join date after the end leaves it
      empty. */
  lemma CalendarCharacterization(joinDate: CivilDate, period: Period, holidays: set<string>)
    requires ValidDate(joinDate) && ValidDate(period.start) && ValidDate(period.end)
    ensures var days := EligibilityCalendar(joinDate, period, holidays);
      var ds := EligibleDates(EffectiveStart(joinDate, period.start), period.end);
      && |days| == |ds|
      && (forall i :: 0 <= i < |ds| ==>
            && days[i].date == ToDateStr(ds[i])
            && days[i].isHoliday == (ToDateStr(ds[i]) in holidays)
            && ValidDate(ds[i]) && !IsSunday(ds[i])
            && DayNumber(joinDate) <= DayNumber(ds[i]) && DayNumber(period.start) <= DayNumber(ds[i])
            && DayNumber(ds[i]) <= DayNumber(period.end))
      && Chronological(ds)
      && (forall i, j :: 0 <= i < j < |days| ==> days[i].date != days[j].date)
      && (DayNumber(joinDate) > DayNumber(period.end) ==> days == [])
  {
    var from := EffectiveStart(joinDate, period.start);
    var days := EligibilityCalendar(joinDate, period, holidays);
    var ds := EligibleDates(from, period.end);
    WalkDaysMembers(from, DayNumber(from), DayNumber(period.end));
    WalkDaysIncreasing(from, DayNumber(from), DayNumber(period.end));
    forall i, j | 0 <= i < j < |days|
      ensures days[i].date != days[j].date
    {
      if days[i].date == days[j].date {
        DateStrInjective(ds[i], ds[j]);
      }
    }
  }

  /** Conversely, every non-Sunday date from max(join date, period start)
      through the period end appears in the calendar, with its key and its
      holiday flag. */
  lemma CalendarComplete(joinDate: CivilDate, period: Period, holidays: set<string>, x: CivilDate)
    requires ValidDate(joinDate) && ValidDate(period.start) && ValidDate(period.end)
    requires ValidDate(x) && !IsSunday(x)
    requires DayNumber(joinDate) <= DayNumber(x) && DayNumber(period.start) <= DayNumber(x)
    requires DayNumber(x) <= DayNumber(period.end)
    ensures EligibleDay(ToDateStr(x), ToDateStr(x) in holidays) in EligibilityCalendar(joinDate, period, holidays)
  {
    var from := EffectiveStart(joinDate, period.start);
    var ds := EligibleDates(from, period.end);
    WalkDaysComplete(from, DayNumber(from), DayNumber(period.end), x);
    var k :| 0 <= k < |ds| && ds[k] == x;
    assert EligibilityCalendar(joinDate, period, holidays)[k] == Mark(x, holidays);
  }

  /** totalEligible is the number of non-Sunday days from max(join date,
      period start) through the period end. */
  lemma CalendarSize(joinDate: CivilDate, period: Period, holidays: set<string>)
    requires ValidDate(joinDate) && ValidDate(period.start) && ValidDate(period.end)
    ensures |EligibilityCalendar(joinDate, period, holidays)| ==
      NonSundayCount(DayNumber(EffectiveStart(joinDate, period.start)), DayNumber(period.end))
  {
    var from := EffectiveStart(joinDate, period.start);
    WalkDaysCount(from, DayNumber(from), DayNumber(period.end));
  }
}
