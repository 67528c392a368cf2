/** The command-line script lock_salary_cycle.js around the lock engine:
    the required arguments (lines 18-28), the banner (line 61), one run of
    the engine (lines 63-161), and the console lines and exit code of each
    way the run ends (lines 70-74, 134-137, 163). */
module CliAdapter {
  import opened Records
  import opened Auth
  import opened DateKeys
  import opened MonthRange
  import opened LockEngine

  /** A value of minimist's argv: a missing option, a number (minimist
      turns numeric text into numbers), other text, or a bare flag. */
  datatype Arg = Absent | Num(n: int) | Text(s: string) | Flag(b: bool)

  /** JavaScript truthiness of an argv value. */
  predicate Truthy(a: Arg) {
    match a
    case Absent => false
    case Num(n) => n != 0
    case Text(s) => s != ""
    case Flag(b) => b
  }

  /** `a || b`. */
  function Or(a: Arg, b: Arg): (r: Arg)
    ensures r == a || r == b
    ensures Truthy(r) <==> Truthy(a) || Truthy(b)
  {
    if Truthy(a) then a else b
  }

  /** `Number(a)`, with None for NaN: non-numeric text is NaN, while text
      of nothing but spaces is 0, and a flag is 1 or 0. */
  function ToNumber(a: Arg): (r: Option<int>)
    ensures NumberTruthy(r) ==> Truthy(a)
    ensures a.Num? ==> r == Some(a.n)
    ensures !Truthy(a) ==> !NumberTruthy(r)
  {
    match a
    case Absent => None
    case Num(n) => Some(n)
    case Text(s) => if forall i :: 0 <= i < |s| ==> IsJsSpace(s[i]) then Some(0) else None
    case Flag(b) => Some(if b then 1 else 0)
  }

  /** The admin id as the cycle's `locked_by` receives it. */
  function ArgText(a: Arg): string {
    match a
    case Absent => ""
    case Num(n) => IntToDecimal(n)
    case Text(s) => s
    case Flag(b) => if b then "true" else "false"
  }

  /** `!Number(a)` is false. */
  predicate NumberTruthy(n: Option<int>) {
    n.Some? && n.value != 0
  }

  /** The options the script reads: each long flag and its one-letter alias. */
  datatype Argv = Argv(year: Arg, y: Arg, month: Arg, m: Arg, admin: Arg, a: Arg)

  datatype ScriptArgs = ScriptArgs(year: int, month: int, admin: string)

  /** parseArgs: each field is read from its long flag when that one is
      truthy, and from its one-letter alias otherwise; the year and the month
      must then be non-zero numbers and the admin present. */
  function ParseArgs(argv: Argv): (r: Option<ScriptArgs>)
    ensures r.Some? <==>
      && NumberTruthy(ToNumber(if Truthy(argv.year) then argv.year else argv.y))
      && NumberTruthy(ToNumber(if Truthy(argv.month) then argv.month else argv.m))
      && (Truthy(argv.admin) || Truthy(argv.a))
    ensures r.Some? ==>
      && r.value.year == ToNumber(if Truthy(argv.year) then argv.year else argv.y).value != 0
      && r.value.month == ToNumber(if Truthy(argv.month) then argv.month else argv.m).value != 0
      && r.value.admin == ArgText(if Truthy(argv.admin) then argv.admin else argv.a) != ""
  {
    var year := ToNumber(Or(argv.year, argv.y));
    var month := ToNumber(Or(argv.month, argv.m));
    var admin := Or(argv.admin, argv.a);
    if !NumberTruthy(year) || !NumberTruthy(month) || !Truthy(admin) then None
    else Some(ScriptArgs(year.value, month.value, ArgText(admin)))
  }

  /** A truthy long flag wins over its alias; a falsy one falls back to it. */
  lemma LongFlagFirst(argv: Argv)
    ensures Truthy(argv.year) ==> ToNumber(Or(argv.year, argv.y)) == ToNumber(argv.year)
    ensures !Truthy(argv.year) ==> ToNumber(Or(argv.year, argv.y)) == ToNumber(argv.y)
    ensures Truthy(argv.admin) ==> ParseArgs(argv).Some? ==> ParseArgs(argv).value.admin == ArgText(argv.admin)
  {
  }

  /** The lines the script prints. */
  datatype Line =
    | UsageLine
    | BannerLine(year: int, month: int)
    | PendingGateLine
    | PendingCountLine(count: nat)
    | PendingDuringRunLine
    | LockedLine

  /** The text of each line, as console.log and console.error write it
      (console.error's two arguments are joined by a space). */
  function Text(l: Line): string {
    match l
    case UsageLine => "Usage: --year=YYYY --month=MM --admin=<admin_id>"
    case BannerLine(year, month) => "Locking salary cycle for " + IntToDecimal(year) + "-" + TwoDigits(month) + "..."
    case PendingGateLine => "Cannot lock: there are pending attendance approvals."
    case PendingCountLine(count) => "Pending count: " + NatToDecimal(count)
    case PendingDuringRunLine => "Found a pending attendance after earlier check - aborting."
    case LockedLine => "Salary cycle locked and earnings recorded."
  }

  /** The banner names the month with at least two digits. */
  lemma BannerMonth(year: int, month: int)
    requires 1 <= month <= 12
    ensures Text(BannerLine(year, month))[..25] == "Locking salary cycle for "
    ensures |TwoDigits(month)| == 2
  {
    var y := IntToDecimal(year);
    assert Text(BannerLine(year, month)) == "Locking salary cycle for " + (y + "-" + TwoDigits(month) + "...");
  }

  /** What the script prints and its exit status. */
  datatype Console = Console(exitCode: nat, stdout: seq<Line>, stderr: seq<Line>)

  /** The console lines and exit status after the banner, for each way the
      engine's run ends. */
  function Report(outcome: Outcome): (c: Console)
    ensures c.exitCode == 0 <==> outcome.Locked?
    ensures c.exitCode != 0 ==> c.exitCode == 1 && c.stdout == [] && |c.stderr| > 0
    ensures c.exitCode == 0 ==> c.stderr == [] && c.stdout == [LockedLine]
    ensures outcome.PendingAtGate? ==> PendingCountLine(outcome.count) in c.stderr
    ensures PendingDuringRunLine in c.stderr <==> outcome == PendingDuringRun
  {
    match outcome
    case PendingAtGate(count) => Console(1, [], [PendingGateLine, PendingCountLine(count)])
    case PendingDuringRun => Console(1, [], [PendingDuringRunLine])
    case Locked(_, _) => Console(0, [LockedLine], [])
  }

  /** One invocation against a store that holds `cycles`: what it prints,
      its exit status, and the engine's run when the arguments were there. */
  datatype ScriptRun = ScriptRun(console: Console, run: Option<EngineRun>)

  function ScriptSpec(argv: Argv, view: StoreView, cycles: seq<CycleRow>, lockedAt: string): ScriptRun
    requires JoinDatesValid(view.profiles)
  {
    match ParseArgs(argv)
    case None => ScriptRun(Console(1, [], [UsageLine]), None)
    case Some(args) =>
      var run := LockSpec(view, args.year, args.month, MonthRangeUTC(args.year, args.month), args.admin, lockedAt, cycles);
      var report := Report(run.outcome);
      ScriptRun(Console(report.exitCode, [BannerLine(args.year, args.month)] + report.stdout, report.stderr), Some(run))
  }

  /** The script: the argument check, which exits before any store call,
      the banner, the engine's run and its report. */
  method RunScript(store: Store, argv: Argv, lockedAt: string)
    returns (exitCode: nat, stdout: seq<Line>, stderr: seq<Line>)
    requires JoinDatesValid(store.view.profiles)
    modifies store
    ensures var s := ScriptSpec(argv, store.view, old(store.cycles), lockedAt);
      && Console(exitCode, stdout, stderr) == s.console
      && (s.run.None? ==>
            store.cycles == old(store.cycles) && store.earnings == old(store.earnings) && store.calls == old(store.calls))
      && (s.run.Some? ==>
            && store.cycles == old(store.cycles) + s.run.value.newCycles
            && store.earnings == old(store.earnings) + s.run.value.newEarnings
            && store.calls == old(store.calls) + s.run.value.calls)
  {
    var args := ParseArgs(argv);
    if args.None? {
      return 1, [], [UsageLine];
    }
    var year, month, admin := args.value.year, args.value.month, args.value.admin;
    stdout := [BannerLine(year, month)];
    var outcome := Lock(store, year, month, admin, lockedAt);
    var report := Report(outcome);
    return report.exitCode, stdout + report.stdout, report.stderr;
  }

  // ---------------------------------------------------------------------------
  // The exit status, in terms of the engine

  /** A missing argument exits with status 1 and the usage line before any
      output or store call. */
  lemma MissingArgumentExits(argv: Argv, view: StoreView, cycles: seq<CycleRow>, lockedAt: string)
    requires JoinDatesValid(view.profiles)
    requires || !Truthy(Or(argv.admin, argv.a))
             || !NumberTruthy(ToNumber(Or(argv.year, argv.y)))
             || !NumberTruthy(ToNumber(Or(argv.month, argv.m)))
    ensures ScriptSpec(argv, view, cycles, lockedAt) == ScriptRun(Console(1, [], [UsageLine]), None)
  {
  }

  /** The pending gate exits with status 1 and prints the count; no cycle
      is created. */
  lemma PendingGateExits(argv: Argv, view: StoreView, cycles: seq<CycleRow>, lockedAt: string)
    requires JoinDatesValid(view.profiles)
    requires ParseArgs(argv).Some? && view.pendingCount > 0
    ensures var s := ScriptSpec(argv, view, cycles, lockedAt);
      && s.console.exitCode == 1
      && s.console.stderr == [PendingGateLine, PendingCountLine(view.pendingCount)]
      && s.run.Some? && s.run.value.newCycles == [] && s.run.value.newEarnings == []
  {
    var args := ParseArgs(argv).value;
    var p := MonthRangeUTC(args.year, args.month);
    GateRefuses(view, args.year, args.month, ToDateStr(p.start), ToDateStr(p.end), args.admin, lockedAt, cycles,
                Outcomes(ContextFor(view, p, |cycles| + 1), view.profiles));
  }

  /** Exit status 0 means the arguments were there, exactly one cycle was
      created for the requested month by the admin, and the earnings rows
      of the profiles that earn were written. */
  lemma SuccessMeansLocked(argv: Argv, view: StoreView, cycles: seq<CycleRow>, lockedAt: string)
    requires JoinDatesValid(view.profiles)
    ensures var s := ScriptSpec(argv, view, cycles, lockedAt);
      s.console.exitCode == 0 ==>
        && ParseArgs(argv).Some? && s.run.Some? && view.pendingCount == 0
        && s.run.value.newCycles ==
             [CycleRow(|cycles| + 1, ParseArgs(argv).value.year, ParseArgs(argv).value.month, ParseArgs(argv).value.admin, lockedAt)]
        && s.console.stdout == [BannerLine(ParseArgs(argv).value.year, ParseArgs(argv).value.month)] + [LockedLine]
  {
    var r := ParseArgs(argv);
    if r.Some? {
      var args := r.value;
      var p := MonthRangeUTC(args.year, args.month);
      LockedMeansNewCycle(view, args.year, args.month, ToDateStr(p.start), ToDateStr(p.end), args.admin, lockedAt, cycles,
                          Outcomes(ContextFor(view, p, |cycles| + 1), view.profiles));
    }
  }
}
