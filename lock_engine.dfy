/** The salary-cycle lock engine shared by the HTTP handler
    (lock-salary.js lines 77-141) and the command-line script
    (lock_salary_cycle.js lines 63-161): the pending-approval gate, the
    cycle insert, the per-profile calendar and credit loops, the mid-run
    abort, and the batch insert of the earnings rows. The record store is a
    class whose tables the engine appends to and which logs every query and
    insert in order. */
module LockEngine {
  import opened Calendar
  import opened DateKeys
  import opened MonthRange
  import opened Records
  import opened Money
  import opened Eligibility
  import opened Earnings

  /** What the record store answers to the engine's queries during one run:
      the number of rows the pending-approval query returns, the holiday rows
      of the month, the salaried active profiles in store order, and the
      attendance rows of the month per employee id. The answers are
      independent of one another, as separate queries are: a row may turn
      pending between the gate and the credit loop. */
  datatype StoreView = StoreView(
    pendingCount: nat,
    holidays: seq<HolidayRow>,
    profiles: seq<Profile>,
    attendance: map<string, seq<AttendanceRow>>)

  /** `attRows || []`: an employee with no rows gets the empty list. */
  function AttendanceOf(view: StoreView, employeeId: string): seq<AttendanceRow> {
    if employeeId in view.attendance then view.attendance[employeeId] else []
  }

  /** One request the engine makes to the store, with the date keys of its
      range. */
  datatype Call =
    | PendingQuery(from: string, to: string)
    | CycleInsert(cycle: CycleRow)
    | HolidayQuery(from: string, to: string)
    | ProfileQuery
    | AttendanceQuery(employeeId: string, from: string, to: string)
    | EarningsInsert(rows: seq<EarningRow>)

  /** How a run ends: refused at the gate with the pending count, aborted by
      a pending row found in the credit loop, or locked with the cycle id and
      the number of earnings rows inserted. */
  datatype Outcome = PendingAtGate(count: nat) | PendingDuringRun | Locked(cycleId: nat, inserted: nat)

  /** Join dates are calendar dates (a date-only join_date, midnight UTC). */
  predicate JoinDatesValid(ps: seq<Profile>) {
    forall i :: 0 <= i < |ps| ==> ValidDate(ps[i].joinDate)
  }

  // ---------------------------------------------------------------------------
  // The profile loop, as a specification

  /** What stays fixed during the profile loop. */
  datatype RunContext = RunContext(
    view: StoreView,
    period: Period,
    holidays: set<string>,
    startKey: string,
    endKey: string,
    cycleId: nat)

  predicate ContextValid(ctx: RunContext) {
    ValidDate(ctx.period.start) && ValidDate(ctx.period.end)
  }

  /** What one profile contributes, with its own attendance rows. */
  function OutcomeOf(ctx: RunContext, p: Profile): ProfileOutcome
    requires ContextValid(ctx) && ValidDate(p.joinDate)
  {
    ProfileEarning(p, ctx.period, ctx.holidays, AttendanceOf(ctx.view, p.id), ctx.cycleId)
  }

  /** The outcome of every profile, in profile order. */
  function Outcomes(ctx: RunContext, ps: seq<Profile>): (os: seq<ProfileOutcome>)
    requires ContextValid(ctx) && JoinDatesValid(ps)
    ensures |os| == |ps|
  {
    if ps == [] then [] else Outcomes(ctx, ps[..|ps| - 1]) + [OutcomeOf(ctx, ps[|ps| - 1])]
  }

  lemma {:induction false} OutcomesAt(ctx: RunContext, ps: seq<Profile>, i: nat)
    requires ContextValid(ctx) && JoinDatesValid(ps) && i < |ps|
    ensures Outcomes(ctx, ps)[i] == OutcomeOf(ctx, ps[i])
  {
    if i < |ps| - 1 {
      OutcomesAt(ctx, ps[..|ps| - 1], i);
    }
  }

  /** `os` lists the outcome of each profile in the context. The quantifier
      fires only on an outcome term, so that a proof about the loop does not
      unfold every profile's calendar. */
  predicate OutcomesMatch(ctx: RunContext, ps: seq<Profile>, os: seq<ProfileOutcome>)
    requires ContextValid(ctx) && JoinDatesValid(ps)
  {
    |os| == |ps| && forall k {:trigger OutcomeOf(ctx, ps[k])} :: 0 <= k < |ps| ==> os[k] == OutcomeOf(ctx, ps[k])
  }

  lemma OutcomesMatchAll(ctx: RunContext, ps: seq<Profile>)
    requires ContextValid(ctx) && JoinDatesValid(ps)
    ensures OutcomesMatch(ctx, ps, Outcomes(ctx, ps))
  {
    forall k | 0 <= k < |ps| ensures Outcomes(ctx, ps)[k] == OutcomeOf(ctx, ps[k]) {
      OutcomesAt(ctx, ps, k);
    }
  }

  /** The run with the profiles' own outcomes is the run with any list that
      matches them. */
  lemma LockSpecByOutcomes(view: StoreView, year: int, month: int, period: Period, admin: string, lockedAt: string,
                           cycles: seq<CycleRow>, os: seq<ProfileOutcome>)
    requires ValidDate(period.start) && ValidDate(period.end) && JoinDatesValid(view.profiles)
    requires OutcomesMatch(ContextFor(view, period, |cycles| + 1), view.profiles, os)
    ensures LockSpec(view, year, month, period, admin, lockedAt, cycles) ==
      LockRun(view, year, month, ToDateStr(period.start), ToDateStr(period.end), admin, lockedAt, cycles, os)
  {
    var ctx := ContextFor(view, period, |cycles| + 1);
    OutcomesMatchAll(ctx, view.profiles);
    OutcomesUnique(ctx, view.profiles, Outcomes(ctx, view.profiles), os);
  }

  lemma OutcomesUnique(ctx: RunContext, ps: seq<Profile>, a: seq<ProfileOutcome>, b: seq<ProfileOutcome>)
    requires ContextValid(ctx) && JoinDatesValid(ps)
    requires OutcomesMatch(ctx, ps, a) && OutcomesMatch(ctx, ps, b)
    ensures a == b
  {
    forall k | 0 <= k < |ps| ensures a[k] == b[k] {
      assert a[k] == OutcomeOf(ctx, ps[k]);
    }
  }

  /** Every context has a list of outcomes. */
  lemma MatchingOutcomes(ctx: RunContext, ps: seq<Profile>) returns (os: seq<ProfileOutcome>)
    requires ContextValid(ctx) && JoinDatesValid(ps)
    ensures OutcomesMatch(ctx, ps, os)
  {
    os := Outcomes(ctx, ps);
    OutcomesMatchAll(ctx, ps);
  }

  /** The state of the profile loop after some profiles: whether it has
      aborted, the earnings rows pushed, and the attendance queries made. */
  datatype ProfilesRun = ProfilesRun(aborted: bool, rows: seq<EarningRow>, queries: seq<Call>)

  /** `for (const p of profiles)`, given each profile's outcome: a profile
      with no eligible day is skipped before its attendance is read;
      otherwise its attendance is queried and it either aborts the loop or
      pushes its row. */
  function RunProfiles(ps: seq<Profile>, os: seq<ProfileOutcome>, startKey: string, endKey: string): ProfilesRun
    requires |os| == |ps|
  {
    if ps == [] then ProfilesRun(false, [], [])
    else
      var n := |ps| - 1;
      var prev := RunProfiles(ps[..n], os[..n], startKey, endKey);
      if prev.aborted || os[n].Skipped? then prev
      else
        var queries := prev.queries + [AttendanceQuery(ps[n].id, startKey, endKey)];
        if os[n].Earned? then ProfilesRun(false, prev.rows + [os[n].row], queries)
        else ProfilesRun(true, prev.rows, queries)
  }

  /** Reference: the rows of the profiles that earn, in profile order. */
  function EarnedRows(os: seq<ProfileOutcome>): seq<EarningRow> {
    if os == [] then []
    else (if os[0].Earned? then [os[0].row] else []) + EarnedRows(os[1..])
  }

  /** Reference: the number of profiles that are not skipped. */
  function WorkingProfiles(os: seq<ProfileOutcome>): nat {
    if os == [] then 0
    else (if os[0].Skipped? then 0 else 1) + WorkingProfiles(os[1..])
  }

  /** Some profile's credit loop hits a pending regular day. */
  predicate SomeAborts(os: seq<ProfileOutcome>) {
    exists i :: 0 <= i < |os| && os[i].AbortedRun?
  }

  // ---------------------------------------------------------------------------
  // The whole run, as a specification

  /** The result of one run: its outcome, the rows it adds to the cycle and
      earnings tables, and the calls it makes, in order. */
  datatype EngineRun = EngineRun(outcome: Outcome, newCycles: seq<CycleRow>, newEarnings: seq<EarningRow>, calls: seq<Call>)

  /** The row the store will hold for the cycle; the store numbers cycles
      serially from 1. */
  function NewCycle(cycles: seq<CycleRow>, year: int, month: int, admin: string, lockedAt: string): CycleRow {
    CycleRow(|cycles| + 1, year, month, admin, lockedAt)
  }

  /** The context of the profile loop once the cycle `cycleId` exists. */
  function ContextFor(view: StoreView, period: Period, cycleId: nat): RunContext {
    LoopContext(view, period, ToDateStr(period.start), ToDateStr(period.end), cycleId)
  }

  /** The same, with the month's date keys already computed. */
  function LoopContext(view: StoreView, period: Period, startKey: string, endKey: string, cycleId: nat): RunContext {
    RunContext(view, period, HolidaySet(view.holidays), startKey, endKey, cycleId)
  }

  /** One run of the engine against a store that already holds `cycles`,
      for (year, month) by `admin` at time `lockedAt`, with the date keys of
      the month and with `os` the outcome each profile would have: the gate,
      the cycle insert, the holiday and profile reads, the profile loop and
      the batch insert. */
  function LockRun(view: StoreView, year: int, month: int, startKey: string, endKey: string, admin: string,
                   lockedAt: string, cycles: seq<CycleRow>, os: seq<ProfileOutcome>): EngineRun
    requires |os| == |view.profiles|
  {
    var gate := [PendingQuery(startKey, endKey)];
    if view.pendingCount > 0 then EngineRun(PendingAtGate(view.pendingCount), [], [], gate)
    else
      var cycle := NewCycle(cycles, year, month, admin, lockedAt);
      var run := RunProfiles(view.profiles, os, startKey, endKey);
      var calls := gate + ([CycleInsert(cycle), HolidayQuery(startKey, endKey), ProfileQuery] + run.queries);
      if run.aborted then EngineRun(PendingDuringRun, [cycle], [], calls)
      else if |run.rows| > 0 then EngineRun(Locked(cycle.id, |run.rows|), [cycle], run.rows, calls + [EarningsInsert(run.rows)])
      else EngineRun(Locked(cycle.id, 0), [cycle], [], calls)
  }

  /** One run of the engine for (year, month), whose range is `period`: the
      profiles' outcomes are computed in the context of the cycle the run
      inserts. */
  function LockSpec(view: StoreView, year: int, month: int, period: Period, admin: string, lockedAt: string,
                    cycles: seq<CycleRow>): EngineRun
    requires ValidDate(period.start) && ValidDate(period.end) && JoinDatesValid(view.profiles)
  {
    LockRun(view, year, month, ToDateStr(period.start), ToDateStr(period.end), admin, lockedAt, cycles,
            Outcomes(ContextFor(view, period, |cycles| + 1), view.profiles))
  }

  // ---------------------------------------------------------------------------
  // Lemmas about one profile

  /** A profile is skipped exactly when it has no eligible day. */
  lemma WorkingNotSkipped(ctx: RunContext, p: Profile)
    requires ContextValid(ctx) && ValidDate(p.joinDate)
    ensures OutcomeOf(ctx, p).Skipped? <==> |EligibilityCalendar(p.joinDate, ctx.period, ctx.holidays)| == 0
  {
    EarningForMeaning(p, EligibilityCalendar(p.joinDate, ctx.period, ctx.holidays),
                      IndexByDate(AttendanceOf(ctx.view, p.id)), ctx.cycleId);
  }

  /** A profile's row belongs to the cycle and to the profile. */
  lemma EarnedRowOwner(ctx: RunContext, p: Profile)
    requires ContextValid(ctx) && ValidDate(p.joinDate)
    ensures OutcomeOf(ctx, p).Earned? ==>
      OutcomeOf(ctx, p).row.cycleId == ctx.cycleId && OutcomeOf(ctx, p).row.employeeId == p.id
  {
    EarningForMeaning(p, EligibilityCalendar(p.joinDate, ctx.period, ctx.holidays),
                      IndexByDate(AttendanceOf(ctx.view, p.id)), ctx.cycleId);
  }

  /** An attendance snapshot in which no row is awaiting approval. */
  predicate NothingPending(view: StoreView) {
    forall e, r :: e in view.attendance && r in view.attendance[e] ==> r.approval != Pending
  }

  /** With nothing pending in the attendance the store returns, no profile's
      credit loop aborts. */
  lemma NoPendingNoAbort(ctx: RunContext, p: Profile)
    requires ContextValid(ctx) && ValidDate(p.joinDate)
    requires NothingPending(ctx.view)
    ensures !OutcomeOf(ctx, p).AbortedRun?
  {
    var days := EligibilityCalendar(p.joinDate, ctx.period, ctx.holidays);
    var att := IndexByDate(AttendanceOf(ctx.view, p.id));
    EarningForMeaning(p, days, att, ctx.cycleId);
    HasPendingRegularIff(days, att);
  }

  // ---------------------------------------------------------------------------
  // Lemmas about the profile loop

  lemma {:induction false} EarnedRowsAppend(os: seq<ProfileOutcome>, o: ProfileOutcome)
    ensures EarnedRows(os + [o]) == EarnedRows(os) + (if o.Earned? then [o.row] else [])
  {
    if os != [] {
      assert (os + [o])[0] == os[0];
      assert (os + [o])[1..] == os[1..] + [o];
      EarnedRowsAppend(os[1..], o);
    }
  }

  lemma {:induction false} WorkingProfilesAppend(os: seq<ProfileOutcome>, o: ProfileOutcome)
    ensures WorkingProfiles(os + [o]) == WorkingProfiles(os) + (if o.Skipped? then 0 else 1)
  {
    if os != [] {
      assert (os + [o])[0] == os[0];
      assert (os + [o])[1..] == os[1..] + [o];
      WorkingProfilesAppend(os[1..], o);
    }
  }

  /** The loop aborts exactly when some profile's credit loop does; when it
      does not, its rows are exactly the rows of the earning profiles in
      profile order, and there is one row and one attendance query per
      profile that is not skipped. */
  lemma {:induction false} RunProfilesMeaning(ps: seq<Profile>, os: seq<ProfileOutcome>, startKey: string, endKey: string)
    requires |os| == |ps|
    ensures RunProfiles(ps, os, startKey, endKey).aborted <==> SomeAborts(os)
    ensures !RunProfiles(ps, os, startKey, endKey).aborted ==>
      && RunProfiles(ps, os, startKey, endKey).rows == EarnedRows(os)
      && |RunProfiles(ps, os, startKey, endKey).rows| == WorkingProfiles(os)
      && |RunProfiles(ps, os, startKey, endKey).queries| == WorkingProfiles(os)
  {
    if ps != [] {
      var n := |ps| - 1;
      var init, o := os[..n], os[n];
      assert os == init + [o];
      RunProfilesMeaning(ps[..n], init, startKey, endKey);
      EarnedRowsAppend(init, o);
      WorkingProfilesAppend(init, o);
      if SomeAborts(init) {
        var i :| 0 <= i < |init| && init[i].AbortedRun?;
        assert os[i] == init[i];
      } else {
        forall i | 0 <= i < n ensures !os[i].AbortedRun? {
          assert os[i] == init[i];
        }
      }
    }
  }

  /** One more profile: the loop state after profile i from the state
      before it. */
  lemma RunProfilesStep(ps: seq<Profile>, os: seq<ProfileOutcome>, startKey: string, endKey: string, i: nat)
    requires |os| == |ps| && i < |ps|
    ensures var prev := RunProfiles(ps[..i], os[..i], startKey, endKey);
      RunProfiles(ps[..i + 1], os[..i + 1], startKey, endKey) ==
        if prev.aborted || os[i].Skipped? then prev
        else if os[i].Earned? then ProfilesRun(false, prev.rows + [os[i].row], prev.queries + [AttendanceQuery(ps[i].id, startKey, endKey)])
        else ProfilesRun(true, prev.rows, prev.queries + [AttendanceQuery(ps[i].id, startKey, endKey)])
  {
    assert ps[..i + 1][..i] == ps[..i] && os[..i + 1][..i] == os[..i];
  }

  /** Once the loop has aborted, the rest of the profiles change nothing. */
  lemma {:induction false} AbortedPrefix(ps: seq<Profile>, os: seq<ProfileOutcome>, startKey: string, endKey: string, k: nat)
    requires |os| == |ps| && k <= |ps|
    requires RunProfiles(ps[..k], os[..k], startKey, endKey).aborted
    ensures RunProfiles(ps, os, startKey, endKey) == RunProfiles(ps[..k], os[..k], startKey, endKey)
    decreases |ps| - k
  {
    if k < |ps| {
      var n := |ps| - 1;
      assert ps[..n][..k] == ps[..k] && os[..n][..k] == os[..k];
      AbortedPrefix(ps[..n], os[..n], startKey, endKey, k);
    } else {
      assert ps[..k] == ps && os[..k] == os;
    }
  }

  /** The loop's queries are all attendance queries. */
  lemma {:induction false} QueriesAreAttendance(ps: seq<Profile>, os: seq<ProfileOutcome>, startKey: string, endKey: string)
    requires |os| == |ps|
    ensures forall k :: 0 <= k < |RunProfiles(ps, os, startKey, endKey).queries| ==>
      RunProfiles(ps, os, startKey, endKey).queries[k].AttendanceQuery?
  {
    if ps != [] {
      var n := |ps| - 1;
      QueriesAreAttendance(ps[..n], os[..n], startKey, endKey);
    }
  }

  /** Every reference row is the row of one of the profiles. */
  lemma {:induction false} EarnedRowsFrom(os: seq<ProfileOutcome>)
    ensures forall r :: r in EarnedRows(os) ==> exists i :: 0 <= i < |os| && os[i] == Earned(r)
  {
    if os != [] {
      EarnedRowsFrom(os[1..]);
      forall r | r in EarnedRows(os) ensures exists i :: 0 <= i < |os| && os[i] == Earned(r) {
        if r in EarnedRows(os[1..]) {
          var i :| 0 <= i < |os[1..]| && os[1..][i] == Earned(r);
          assert os[i + 1] == os[1..][i];
        } else {
          assert os[0] == Earned(r);
        }
      }
    }
  }

  // ---------------------------------------------------------------------------
  // Lemmas about the run, for any outcomes of the profiles

  /** Past the gate, the run in terms of the profile loop's result. */
  lemma PastGate(view: StoreView, year: int, month: int, startKey: string, endKey: string, admin: string,
                 lockedAt: string, cycles: seq<CycleRow>, os: seq<ProfileOutcome>)
    requires |os| == |view.profiles| && view.pendingCount == 0
    ensures var run := LockRun(view, year, month, startKey, endKey, admin, lockedAt, cycles, os);
      var loop := RunProfiles(view.profiles, os, startKey, endKey);
      var cycle := NewCycle(cycles, year, month, admin, lockedAt);
      && run.newCycles == [cycle]
      && run.outcome == (if loop.aborted then PendingDuringRun else Locked(cycle.id, |loop.rows|))
      && run.newEarnings == (if loop.aborted then [] else loop.rows)
      && run.calls == [PendingQuery(startKey, endKey)] + ([CycleInsert(cycle), HolidayQuery(startKey, endKey), ProfileQuery] +
           loop.queries) + (if !loop.aborted && |loop.rows| > 0 then [EarningsInsert(loop.rows)] else [])
  {
  }

  /** A pending row at the gate refuses the lock with its count: no cycle,
      no earnings, and the pending query is the only call. */
  lemma GateRefuses(view: StoreView, year: int, month: int, startKey: string, endKey: string, admin: string,
                    lockedAt: string, cycles: seq<CycleRow>, os: seq<ProfileOutcome>)
    requires |os| == |view.profiles|
    ensures var run := LockRun(view, year, month, startKey, endKey, admin, lockedAt, cycles, os);
      && (run.outcome.PendingAtGate? <==> view.pendingCount > 0)
      && (view.pendingCount > 0 ==>
            && run.outcome.count == view.pendingCount
            && run.newCycles == [] && run.newEarnings == []
            && run.calls == [PendingQuery(startKey, endKey)])
  {
  }

  /** Past the gate exactly one cycle row is added, for the requested
      month, by the admin, numbered after the existing cycles; it is inserted
      right after the pending query and before any other read. */
  lemma GatePassedCreatesCycle(view: StoreView, year: int, month: int, startKey: string, endKey: string, admin: string,
                               lockedAt: string, cycles: seq<CycleRow>, os: seq<ProfileOutcome>)
    requires |os| == |view.profiles| && view.pendingCount == 0
    ensures var run := LockRun(view, year, month, startKey, endKey, admin, lockedAt, cycles, os);
      && run.newCycles == [CycleRow(|cycles| + 1, year, month, admin, lockedAt)]
      && |run.calls| >= 4
      && run.calls[0] == PendingQuery(startKey, endKey) && run.calls[1] == CycleInsert(run.newCycles[0])
      && run.calls[2] == HolidayQuery(startKey, endKey) && run.calls[3] == ProfileQuery
  {
  }

  /** A run that locks passed the gate and added exactly its one cycle. */
  lemma LockedMeansNewCycle(view: StoreView, year: int, month: int, startKey: string, endKey: string, admin: string,
                            lockedAt: string, cycles: seq<CycleRow>, os: seq<ProfileOutcome>)
    requires |os| == |view.profiles|
    ensures var run := LockRun(view, year, month, startKey, endKey, admin, lockedAt, cycles, os);
      run.outcome.Locked? ==>
        view.pendingCount == 0 && run.newCycles == [CycleRow(|cycles| + 1, year, month, admin, lockedAt)]
  {
    GateRefuses(view, year, month, startKey, endKey, admin, lockedAt, cycles, os);
    if view.pendingCount == 0 {
      GatePassedCreatesCycle(view, year, month, startKey, endKey, admin, lockedAt, cycles, os);
    }
  }

  /** The run is aborted mid-way exactly when the gate passes and some
      profile's credit loop meets a pending row; the cycle then stays, and no
      earnings are inserted. */
  lemma MidRunAbort(view: StoreView, year: int, month: int, startKey: string, endKey: string, admin: string,
                    lockedAt: string, cycles: seq<CycleRow>, os: seq<ProfileOutcome>)
    requires |os| == |view.profiles|
    ensures var run := LockRun(view, year, month, startKey, endKey, admin, lockedAt, cycles, os);
      && (run.outcome == PendingDuringRun <==> view.pendingCount == 0 && SomeAborts(os))
      && (run.outcome == PendingDuringRun ==>
            && |run.newCycles| == 1 && run.newEarnings == []
            && forall k :: 0 <= k < |run.calls| ==> !run.calls[k].EarningsInsert?)
  {
    RunProfilesMeaning(view.profiles, os, startKey, endKey);
    QueriesAreAttendance(view.profiles, os, startKey, endKey);
  }

  /** A successful run inserts exactly the rows of the earning profiles, in
      profile order, one per profile with eligible days; the insert is the
      last call and is made exactly when there is a row, and the reported
      count is the number of rows. */
  lemma LockedBatch(view: StoreView, year: int, month: int, startKey: string, endKey: string, admin: string,
                    lockedAt: string, cycles: seq<CycleRow>, os: seq<ProfileOutcome>)
    requires |os| == |view.profiles|
    ensures var run := LockRun(view, year, month, startKey, endKey, admin, lockedAt, cycles, os);
      run.outcome.Locked? ==>
        && run.outcome.cycleId == |cycles| + 1
        && run.newEarnings == EarnedRows(os)
        && run.outcome.inserted == |run.newEarnings| == WorkingProfiles(os)
        && (run.outcome.inserted > 0 <==> run.calls[|run.calls| - 1] == EarningsInsert(run.newEarnings))
  {
    RunProfilesMeaning(view.profiles, os, startKey, endKey);
    QueriesAreAttendance(view.profiles, os, startKey, endKey);
  }

  /** The store's cycle ids are 1, 2, ... in insertion order. */
  predicate SerialIds(cycles: seq<CycleRow>) {
    forall i :: 0 <= i < |cycles| ==> cycles[i].id == i + 1
  }

  /** A run keeps the cycle ids serial, so no two cycles share an id. */
  lemma RunKeepsSerialIds(view: StoreView, year: int, month: int, startKey: string, endKey: string, admin: string,
                          lockedAt: string, cycles: seq<CycleRow>, os: seq<ProfileOutcome>)
    requires |os| == |view.profiles| && SerialIds(cycles)
    ensures SerialIds(cycles + LockRun(view, year, month, startKey, endKey, admin, lockedAt, cycles, os).newCycles)
  {
  }

  /** Nothing stops a second lock of the same month: two runs past the gate
      leave two cycle rows for it, with different ids. */
  lemma LockTwiceTwoCycles(view: StoreView, year: int, month: int, startKey: string, endKey: string, admin: string,
                           t1: string, t2: string, cycles: seq<CycleRow>, os1: seq<ProfileOutcome>, os2: seq<ProfileOutcome>)
    requires |os1| == |view.profiles| && |os2| == |view.profiles| && view.pendingCount == 0
    ensures var c1 := cycles + LockRun(view, year, month, startKey, endKey, admin, t1, cycles, os1).newCycles;
      var c2 := c1 + LockRun(view, year, month, startKey, endKey, admin, t2, c1, os2).newCycles;
      && |c2| == |cycles| + 2
      && c2[|cycles|].year == c2[|cycles| + 1].year == year
      && c2[|cycles|].month == c2[|cycles| + 1].month == month
      && c2[|cycles|].id != c2[|cycles| + 1].id
  {
  }

  // ---------------------------------------------------------------------------
  // Lemmas about the run with the profiles' own outcomes

  /** Every row a successful run inserts belongs to the new cycle and to one
      of the profiles, and is that profile's row. */
  lemma LockedRowsOwned(view: StoreView, year: int, month: int, period: Period, admin: string, lockedAt: string,
                        cycles: seq<CycleRow>)
    requires ValidDate(period.start) && ValidDate(period.end) && JoinDatesValid(view.profiles)
    ensures var run := LockSpec(view, year, month, period, admin, lockedAt, cycles);
      var ctx := ContextFor(view, period, |cycles| + 1);
      run.outcome.Locked? ==>
        forall r :: r in run.newEarnings ==>
          && r.cycleId == |cycles| + 1
          && exists i :: 0 <= i < |view.profiles| && r.employeeId == view.profiles[i].id && OutcomeOf(ctx, view.profiles[i]) == Earned(r)
  {
    var ctx := ContextFor(view, period, |cycles| + 1);
    var os := Outcomes(ctx, view.profiles);
    LockedBatch(view, year, month, ToDateStr(period.start), ToDateStr(period.end), admin, lockedAt, cycles, os);
    EarnedRowsFrom(os);
    forall r | r in EarnedRows(os)
      ensures r.cycleId == |cycles| + 1
      ensures exists i :: 0 <= i < |view.profiles| && r.employeeId == view.profiles[i].id && OutcomeOf(ctx, view.profiles[i]) == Earned(r)
    {
      var i :| 0 <= i < |os| && os[i] == Earned(r);
      OutcomesAt(ctx, view.profiles, i);
      EarnedRowOwner(ctx, view.profiles[i]);
    }
  }

  /** A profile is skipped, and so gets neither an attendance query nor a
      row, exactly when it has no eligible day in the month. */
  lemma SkippedProfiles(view: StoreView, period: Period, cycleId: nat)
    requires ValidDate(period.start) && ValidDate(period.end) && JoinDatesValid(view.profiles)
    ensures var ctx := ContextFor(view, period, cycleId);
      var os := Outcomes(ctx, view.profiles);
      forall i :: 0 <= i < |os| ==>
        (os[i].Skipped? <==> |EligibilityCalendar(view.profiles[i].joinDate, period, ctx.holidays)| == 0)
  {
    var ctx := ContextFor(view, period, cycleId);
    var os := Outcomes(ctx, view.profiles);
    forall i | 0 <= i < |os|
      ensures os[i].Skipped? <==> |EligibilityCalendar(view.profiles[i].joinDate, period, ctx.holidays)| == 0
    {
      OutcomesAt(ctx, view.profiles, i);
      WorkingNotSkipped(ctx, view.profiles[i]);
    }
  }

  /** With nothing pending anywhere in the attendance the store returns, a
      run past the gate always locks. */
  lemma NoPendingLocks(view: StoreView, year: int, month: int, period: Period, admin: string, lockedAt: string,
                       cycles: seq<CycleRow>)
    requires ValidDate(period.start) && ValidDate(period.end) && JoinDatesValid(view.profiles)
    requires view.pendingCount == 0 && NothingPending(view)
    ensures LockSpec(view, year, month, period, admin, lockedAt, cycles).outcome.Locked?
  {
    var ctx := ContextFor(view, period, |cycles| + 1);
    var os := Outcomes(ctx, view.profiles);
    MidRunAbort(view, year, month, ToDateStr(period.start), ToDateStr(period.end), admin, lockedAt, cycles, os);
    GateRefuses(view, year, month, ToDateStr(period.start), ToDateStr(period.end), admin, lockedAt, cycles, os);
    forall i | 0 <= i < |view.profiles| ensures !os[i].AbortedRun? {
      OutcomesAt(ctx, view.profiles, i);
      NoPendingNoAbort(ctx, view.profiles[i]);
    }
  }

  // ---------------------------------------------------------------------------
  // The record store and the engine

  /** The record store: its query answers for this run, the cycle and
      earnings tables, and the log of calls made to it. */
  class Store {
    const view: StoreView
    var cycles: seq<CycleRow>
    var earnings: seq<EarningRow>
    var calls: seq<Call>

    constructor (view: StoreView, cycles: seq<CycleRow>, earnings: seq<EarningRow>)
      ensures this.view == view && this.cycles == cycles && this.earnings == earnings && this.calls == []
    {
      this.view := view;
      this.cycles := cycles;
      this.earnings := earnings;
      this.calls := [];
    }

    /** The attendance rows of the range still awaiting approval, counted. */
    method CountPending(from: string, to: string) returns (n: nat)
      modifies this
      ensures n == view.pendingCount
      ensures cycles == old(cycles) && earnings == old(earnings)
      ensures calls == old(calls) + [PendingQuery(from, to)]
    {
      n := view.pendingCount;
      calls := calls + [PendingQuery(from, to)];
    }

    /** Insert a salary_cycles row; the store assigns the next serial id. */
    method InsertCycle(year: int, month: int, lockedBy: string, lockedAt: string) returns (id: nat)
      modifies this
      ensures id == |old(cycles)| + 1
      ensures cycles == old(cycles) + [CycleRow(id, year, month, lockedBy, lockedAt)]
      ensures earnings == old(earnings)
      ensures calls == old(calls) + [CycleInsert(CycleRow(id, year, month, lockedBy, lockedAt))]
    {
      id := |cycles| + 1;
      var row := CycleRow(id, year, month, lockedBy, lockedAt);
      cycles := cycles + [row];
      calls := calls + [CycleInsert(row)];
    }

    method ReadHolidays(from: string, to: string) returns (rows: seq<HolidayRow>)
      modifies this
      ensures rows == view.holidays
      ensures cycles == old(cycles) && earnings == old(earnings)
      ensures calls == old(calls) + [HolidayQuery(from, to)]
    {
      rows := view.holidays;
      calls := calls + [HolidayQuery(from, to)];
    }

    method ReadProfiles() returns (ps: seq<Profile>)
      modifies this
      ensures ps == view.profiles
      ensures cycles == old(cycles) && earnings == old(earnings)
      ensures calls == old(calls) + [ProfileQuery]
    {
      ps := view.profiles;
      calls := calls + [ProfileQuery];
    }

    method ReadAttendance(employeeId: string, from: string, to: string) returns (rows: seq<AttendanceRow>)
      modifies this
      ensures rows == AttendanceOf(view, employeeId)
      ensures cycles == old(cycles) && earnings == old(earnings)
      ensures calls == old(calls) + [AttendanceQuery(employeeId, from, to)]
    {
      rows := AttendanceOf(view, employeeId);
      calls := calls + [AttendanceQuery(employeeId, from, to)];
    }

    method InsertEarnings(rows: seq<EarningRow>)
      modifies this
      ensures cycles == old(cycles)
      ensures earnings == old(earnings) + rows
      ensures calls == old(calls) + [EarningsInsert(rows)]
    {
      earnings := earnings + rows;
      calls := calls + [EarningsInsert(rows)];
    }
  }

  /** The body of `for (const p of profiles)` for the profile at index i:
      its calendar from the later of its join date and the month's start,
      the per-day rate, the attendance read, and the credit loop. The
      outcome is that profile's outcome in the run's context; only a profile
      with eligible days reads its attendance. */
  method ProfileStep(store: Store, ctx: RunContext, ps: seq<Profile>, i: nat, ghost outs: seq<ProfileOutcome>)
    returns (o: ProfileOutcome)
    requires ContextValid(ctx) && JoinDatesValid(ps) && i < |ps| && ctx.view == store.view
    requires OutcomesMatch(ctx, ps, outs)
    modifies store
    ensures o == outs[i]
    ensures store.cycles == old(store.cycles) && store.earnings == old(store.earnings)
    ensures store.calls == old(store.calls) + (if o.Skipped? then [] else [AttendanceQuery(ps[i].id, ctx.startKey, ctx.endKey)])
  {
    var p := ps[i];
    assert outs[i] == OutcomeOf(ctx, p);
    var effectiveStart := EffectiveStart(p.joinDate, ctx.period.start);
    var days, totalEligible := BuildCalendar(effectiveStart, ctx.period.end, ctx.holidays);
    if totalEligible == 0 {
      return Skipped;
    }
    var perDaySalary := Round6(p.monthlySalary / totalEligible as real);
    var attRows := store.ReadAttendance(p.id, ctx.startKey, ctx.endKey);
    var attMap := IndexByDate(attRows);
    var gross := AccumulateCredits(days, attMap, perDaySalary);
    if gross.Aborted? {
      return AbortedRun;
    }
    return Earned(EarningRow(ctx.cycleId, p.id, p.monthlySalary, totalEligible, perDaySalary, Round2(gross.sum)));
  }

  /** `for (const p of profiles)`: each profile in store order, stopping at
      the first whose credit loop meets a pending row. The loop's result,
      its rows and the attendance queries it makes are those of the
      specification for the profiles' outcomes. */
  method ProfileLoop(store: Store, ctx: RunContext, profiles: seq<Profile>, ghost outs: seq<ProfileOutcome>)
    returns (aborted: bool, batch: seq<EarningRow>)
    requires ContextValid(ctx) && JoinDatesValid(profiles) && ctx.view == store.view
    requires OutcomesMatch(ctx, profiles, outs)
    modifies store
    ensures var run := RunProfiles(profiles, outs, ctx.startKey, ctx.endKey);
      && aborted == run.aborted
      && batch == run.rows
      && store.calls == old(store.calls) + run.queries
    ensures store.cycles == old(store.cycles) && store.earnings == old(store.earnings)
  {
    batch := [];
    for i := 0 to |profiles|
      invariant store.cycles == old(store.cycles) && store.earnings == old(store.earnings)
      invariant !RunProfiles(profiles[..i], outs[..i], ctx.startKey, ctx.endKey).aborted
      invariant batch == RunProfiles(profiles[..i], outs[..i], ctx.startKey, ctx.endKey).rows
      invariant store.calls == old(store.calls) + RunProfiles(profiles[..i], outs[..i], ctx.startKey, ctx.endKey).queries
    {
      var o := ProfileStep(store, ctx, profiles, i, outs);
      RunProfilesStep(profiles, outs, ctx.startKey, ctx.endKey, i);
      if o.Skipped? {
        continue;
      }
      if o.AbortedRun? {
        AbortedPrefix(profiles, outs, ctx.startKey, ctx.endKey, i + 1);
        assert profiles[..|profiles|] == profiles && outs[..|outs|] == outs;
        return true, batch;
      }
      batch := batch + [o.row];
    }
    assert profiles[..|profiles|] == profiles && outs[..|outs|] == outs;
    return false, batch;
  }

  /** The call log of a run past the gate, regrouped as the specification
      writes it. */
  lemma RunLog(log: seq<Call>, gate: Call, a: Call, b: Call, c: Call, queries: seq<Call>, tail: seq<Call>)
    ensures log + [gate] + [a] + [b] + [c] + queries + tail == log + ([gate] + ([a, b, c] + queries) + tail)
  {
  }

  /** One run of the engine: the gate, the cycle insert, the reads, the
      profile loop and the batch insert. The outcome and the store's tables
      and call log end up as the specification says. */
  method Lock(store: Store, year: int, month: int, admin: string, lockedAt: string) returns (outcome: Outcome)
    requires JoinDatesValid(store.view.profiles)
    modifies store
    ensures var run := LockSpec(store.view, year, month, MonthRangeUTC(year, month), admin, lockedAt, old(store.cycles));
      && outcome == run.outcome
      && store.cycles == old(store.cycles) + run.newCycles
      && store.earnings == old(store.earnings) + run.newEarnings
      && store.calls == old(store.calls) + run.calls
  {
    var period := MonthRangeUTC(year, month);
    var startStr, endStr := ToDateStr(period.start), ToDateStr(period.end);
    ghost var outs := MatchingOutcomes(ContextFor(store.view, period, |store.cycles| + 1), store.view.profiles);
    LockSpecByOutcomes(store.view, year, month, period, admin, lockedAt, store.cycles, outs);
    outcome := LockWith(store, year, month, period, startStr, endStr, admin, lockedAt, outs);
  }

  /** The run once the month's range and its date keys are known, with
      `outs` the outcomes of the profiles in the context of the cycle it
      inserts. */
  method LockWith(store: Store, year: int, month: int, period: Period, startKey: string, endKey: string,
                  admin: string, lockedAt: string, ghost outs: seq<ProfileOutcome>)
    returns (outcome: Outcome)
    requires ValidDate(period.start) && ValidDate(period.end) && JoinDatesValid(store.view.profiles)
    requires OutcomesMatch(LoopContext(store.view, period, startKey, endKey, |store.cycles| + 1), store.view.profiles, outs)
    modifies store
    ensures var run := LockRun(store.view, year, month, startKey, endKey, admin, lockedAt, old(store.cycles), outs);
      && outcome == run.outcome
      && store.cycles == old(store.cycles) + run.newCycles
      && store.earnings == old(store.earnings) + run.newEarnings
      && store.calls == old(store.calls) + run.calls
  {
    var pending := store.CountPending(startKey, endKey);
    if pending > 0 {
      GateRefuses(store.view, year, month, startKey, endKey, admin, lockedAt, old(store.cycles), outs);
      return PendingAtGate(pending);
    }
    outcome := PastGateRun(store, year, month, period, startKey, endKey, admin, lockedAt, outs, old(store.calls));
  }

  /** The run once the gate found no pending row; `log` is the call log
      before the gate's query. */
  method PastGateRun(store: Store, year: int, month: int, period: Period, startKey: string, endKey: string,
                     admin: string, lockedAt: string, ghost outs: seq<ProfileOutcome>, ghost log: seq<Call>)
    returns (outcome: Outcome)
    requires ValidDate(period.start) && ValidDate(period.end) && JoinDatesValid(store.view.profiles)
    requires OutcomesMatch(LoopContext(store.view, period, startKey, endKey, |store.cycles| + 1), store.view.profiles, outs)
    requires store.view.pendingCount == 0
    requires store.calls == log + [PendingQuery(startKey, endKey)]
    modifies store
    ensures var run := LockRun(store.view, year, month, startKey, endKey, admin, lockedAt, old(store.cycles), outs);
      && outcome == run.outcome
      && store.cycles == old(store.cycles) + run.newCycles
      && store.earnings == old(store.earnings) + run.newEarnings
      && store.calls == log + run.calls
  {
    ghost var cycle := NewCycle(store.cycles, year, month, admin, lockedAt);
    var ctx, profiles := OpenCycle(store, year, month, period, startKey, endKey, admin, lockedAt);
    outcome := RunAndInsert(store, ctx, profiles, outs);
    PastGate(store.view, year, month, startKey, endKey, admin, lockedAt, old(store.cycles), outs);
    ghost var loop := RunProfiles(profiles, outs, startKey, endKey);
    RunLog(log, PendingQuery(startKey, endKey), CycleInsert(cycle), HolidayQuery(startKey, endKey), ProfileQuery,
           loop.queries, if !loop.aborted && |loop.rows| > 0 then [EarningsInsert(loop.rows)] else []);
  }

  /** Past the gate: insert the cycle row, read the month's holidays and the
      profiles. The context of the profile loop is that of the new cycle. */
  method OpenCycle(store: Store, year: int, month: int, period: Period, startKey: string, endKey: string,
                   admin: string, lockedAt: string)
    returns (ctx: RunContext, profiles: seq<Profile>)
    modifies store
    ensures ctx == LoopContext(store.view, period, startKey, endKey, |old(store.cycles)| + 1)
    ensures profiles == store.view.profiles
    ensures store.cycles == old(store.cycles) + [NewCycle(old(store.cycles), year, month, admin, lockedAt)]
    ensures store.earnings == old(store.earnings)
    ensures store.calls == old(store.calls) + [CycleInsert(NewCycle(old(store.cycles), year, month, admin, lockedAt))] +
      [HolidayQuery(ctx.startKey, ctx.endKey)] + [ProfileQuery]
  {
    var cycleId := store.InsertCycle(year, month, admin, lockedAt);
    var holidayRows := store.ReadHolidays(startKey, endKey);
    var holidaySet := HolidaySet(holidayRows);
    profiles := store.ReadProfiles();
    ctx := RunContext(store.view, period, holidaySet, startKey, endKey, cycleId);
  }

  /** The profile loop, then the batch insert when the loop did not abort
      and produced rows. */
  method RunAndInsert(store: Store, ctx: RunContext, profiles: seq<Profile>, ghost outs: seq<ProfileOutcome>)
    returns (outcome: Outcome)
    requires ContextValid(ctx) && JoinDatesValid(profiles) && ctx.view == store.view
    requires OutcomesMatch(ctx, profiles, outs)
    modifies store
    ensures var loop := RunProfiles(profiles, outs, ctx.startKey, ctx.endKey);
      && outcome == (if loop.aborted then PendingDuringRun else Locked(ctx.cycleId, |loop.rows|))
      && store.cycles == old(store.cycles)
      && store.earnings == old(store.earnings) + (if loop.aborted then [] else loop.rows)
      && store.calls == old(store.calls) + loop.queries +
           (if !loop.aborted && |loop.rows| > 0 then [EarningsInsert(loop.rows)] else [])
  {
    var aborted, batch := ProfileLoop(store, ctx, profiles, outs);
    if aborted {
      return PendingDuringRun;
    }
    if |batch| > 0 {
      store.InsertEarnings(batch);
    }
    return Locked(ctx.cycleId, |batch|);
  }
}
