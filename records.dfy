/** The rows the lock engine reads from and writes to the record store, and
    the two lookup structures it builds from what it reads: the holiday set
    and the per-employee attendance map, both keyed by date strings. */
module Records {
  import opened Calendar

  datatype Option<+T> = None | Some(value: T)

  /** attendance.status; a value outside the four known ones is kept as is. */
  datatype Status = Present | HalfDay | Absent | OnLeave | OtherStatus(name: string)

  /** attendance.is_approved: null, true or false. */
  datatype Approval = Pending | Approved | Denied

  /** One attendance row of one employee, as the engine selects it
      (date, status, is_approved). */
  datatype AttendanceRow = AttendanceRow(date: string, status: Status, approval: Approval)

  /** One holidays row (date, is_holiday). */
  datatype HolidayRow = HolidayRow(date: string, isHoliday: bool)

  /** A salaried, active employee profile (id, join_date, monthly_salary);
      the store's query already drops the other profiles. */
  datatype Profile = Profile(id: string, joinDate: CivilDate, monthlySalary: real)

  /** A salary_cycles row; locked_at is the wall-clock time, kept opaque. */
  datatype CycleRow = CycleRow(id: nat, year: int, month: int, lockedBy: string, lockedAt: string)

  /** A salary_earnings row. */
  datatype EarningRow = EarningRow(
    cycleId: nat,
    employeeId: string,
    monthlySalary: real,
    totalEligibleWorkingDays: nat,
    perDaySalary: real,
    grossEarned: real)

  /** (holidays || []).filter(h => h.is_holiday).map(h => h.date) */
  function HolidayDates(rows: seq<HolidayRow>): (dates: seq<string>)
    ensures |dates| <= |rows|
    ensures forall k :: k in dates <==> exists i :: 0 <= i < |rows| && rows[i].isHoliday && rows[i].date == k
  {
    if rows == [] then []
    else
      var rest := HolidayDates(rows[..|rows| - 1]);
      var last := rows[|rows| - 1];
      if last.isHoliday then rest + [last.date] else rest
  }

  /** new Set(...) of those dates: a date is a holiday exactly when some row
      for it has is_holiday set. */
  function HolidaySet(rows: seq<HolidayRow>): (h: set<string>)
    ensures forall k :: k in h <==> exists i :: 0 <= i < |rows| && rows[i].isHoliday && rows[i].date == k
  {
    set k | k in HolidayDates(rows)
  }

  /** new Map(rows.map(a => [a.date, a])): a later row for the same date
      replaces an earlier one. */
  function IndexByDate(rows: seq<AttendanceRow>): (m: map<string, AttendanceRow>)
    ensures forall k :: k in m <==> exists i :: 0 <= i < |rows| && rows[i].date == k
    ensures forall k :: k in m ==> m[k] in rows && m[k].date == k
  {
    if rows == [] then map[]
    else
      var last := rows[|rows| - 1];
      IndexByDate(rows[..|rows| - 1])[last.date := last]
  }

  /** The map holds, for each date, the last row with that date. */
  lemma {:induction false} IndexByDateLastWins(rows: seq<AttendanceRow>, i: nat)
    requires i < |rows|
    requires forall j :: i < j < |rows| ==> rows[j].date != rows[i].date
    ensures rows[i].date in IndexByDate(rows)
    ensures IndexByDate(rows)[rows[i].date] == rows[i]
  {
    if i < |rows| - 1 {
      IndexByDateLastWins(rows[..|rows| - 1], i);
    }
  }
}
