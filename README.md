# Salary-cycle lock: a Dafny model

This project models the salary-cycle lock of the attendance dashboard. The
lock appears twice in the repository, almost line for line. One copy is the
admin HTTP handler `api/admin/lock-salary.js`. The other is the command-line
script `scripts/lock_salary_cycle.js`. Both do the same steps:

- compute the month's first and last day and their `YYYY-MM-DD` keys;
- refuse the lock while any attendance row of the month is awaiting approval;
- insert a `salary_cycles` row, then read the month's holidays and the
  salaried active employees;
- for each employee, build the eligible-day calendar: non-Sunday days from
  max(join date, month start) through the month end, holidays included and
  flagged;
- set the per-day rate to the salary over the eligible days, rounded to 6
  decimals;
- credit each day by its attendance, aborting the whole run on a pending
  row, and round the gross to 2 decimals;
- insert the earnings rows in one batch, only when there are any.

The model has one shared engine and two thin adapters:

- `Calendar`: the proleptic Gregorian calendar of ECMA-262 (DayFromYear,
  WeekDay with 1970-01-01 a Thursday and 0 meaning Sunday).
- `MonthRange`, `DateKeys`: `monthRangeUTC`/`monthRange` and `toDateStrUTC`.
  The keys are the extended calendar-date format of ISO 8601:2004, section
  4.1.2.2, for years 1000 to 9999.
- `Records`: the rows the store returns, the holiday set and the attendance
  map (the last row for a date wins, as `new Map` does).
- `Auth`: the bearer-prefix strip and `verifyAdmin`'s decision.
- `Eligibility`: the day-by-day calendar loop, as a method over a date
  cursor, and its characterization.
- `Money`: `Number(x.toFixed(k))` on exact reals.
- `Earnings`: the day credits, the credit loop with its abort, and one
  employee's earnings row.
- `LockEngine`: the record store as a class whose cycle and earnings tables
  and call log the engine appends to. The engine is a method over the store,
  proved equal to a specification function of the store's answers.
- `HttpAdapter`: the handler's checks in front of the engine, and the status
  code and JSON body of each outcome.
- `CliAdapter`: the script's argument rule, and the console lines and exit
  status of each outcome.
- `Scenarios`: the February 2025 worked example.

The store's answers to the engine's queries (`StoreView`) are independent
inputs. The pending count the gate sees and the attendance rows the credit
loop reads come from separate queries. This is why the gate can pass and the
run can still abort mid-way.

## Model

| member | source | states |
|---|---|---|
| Calendar.DayNumber | api/admin/lock-salary.js:32-33 | the time value of a date in days since 1970-01-01, as Date.UTC computes it; `DayNumberOrder` and `DayNumberInjective` state that it orders valid dates as (year, month, day) and tells them apart, so `<=` on Date values compares dates |
| Calendar.WeekDay | api/admin/lock-salary.js:113 | `getUTCDay` of a day number lies in 0..6; `EpochIsThursday` pins day 0 to Thursday, so 0 is Sunday |
| Calendar.NextDay | api/admin/lock-salary.js:112 | the date after a date, rolling over months and years; `NextDayNumber` states it is valid and its day number is one more |
| Calendar.DaysInMonth | api/admin/lock-salary.js:33 | the last day of a month is 28 to 31; it is 29 exactly for February of a Gregorian leap year, 28 exactly for other Februaries, 30 exactly for April, June, September and November |
| Calendar.YearLength | api/admin/lock-salary.js:32-33 | consecutive DayFromYear values differ by 366 in a leap year and by 365 otherwise |
| Calendar.NextDayNumber | api/admin/lock-salary.js:112 | advancing the cursor by one calendar day (`setUTCDate(getUTCDate()+1)`) gives a valid date whose day number is one more |
| Calendar.DayNumberOrder | api/admin/lock-salary.js:109 | a date earlier in (year, month, day) order has a smaller day number, so comparing Date values compares dates |
| Calendar.DayNumberInjective | api/admin/lock-salary.js:112 | distinct valid dates have distinct day numbers |
| Calendar.EpochIsThursday | api/admin/lock-salary.js:113 | day 0 is 1970-01-01 and its `getUTCDay` is 4 (Thursday) |
| MonthRange.MakeDay | api/admin/lock-salary.js:32-33 | ECMAScript MakeDay: the day number of a date counted from the first of a normalised month; `MakeDayCarries` states that twelve months carry into the next year and each date step is one day |
| MonthRange.MakeDayCarries | api/admin/lock-salary.js:32-33 | a month index twelve higher is the same month of the next year, and the date counts one day per step from the first of the month |
| MonthRange.MonthRangeUTC | api/admin/lock-salary.js:31-35 | both ends are valid dates of the same month, at the day numbers Date.UTC(year, month-1, 1) and Date.UTC(year, month, 0) give; the start is day 1 and the end is the month's last day; for month 1..12 outside the two-digit years it is exactly (year, month, 1) through (year, month, DaysInMonth) |
| MonthRange.MonthRangeCoversMonth | scripts/lock_salary_cycle.js:30-34 | a valid date lies between the range's ends, both inclusive, exactly when it is in the requested year and month |
| DateKeys.NatToDecimal | api/admin/lock-salary.js:38 | the text of a number is non-empty decimal digits, one digit exactly below 10, with no leading zero |
| DateKeys.PadStart | api/admin/lock-salary.js:38 | `padStart` keeps the text as its suffix and fills the front with the fill character up to the width |
| DateKeys.DecimalStep | api/admin/lock-salary.js:38 | the text of a number of two or more digits is the text of its tenth followed by its last digit |
| DateKeys.TwoDigitsForm | api/admin/lock-salary.js:38 | a month or day from 1 to 99 is written as exactly two digits, tens then units |
| DateKeys.ToDateStr | api/admin/lock-salary.js:37-39 | toDateStrUTC: the unpadded year, then the month and the day padded to two digits, joined by dashes; `DateStrInjective` states that distinct dates get distinct keys and `DateStrIsIso8601` gives the YYYY-MM-DD form for four-digit years |
| DateKeys.DateStrInjective | api/admin/lock-salary.js:37-39 | distinct valid dates give distinct keys |
| DateKeys.DateStrIsIso8601 | scripts/lock_salary_cycle.js:36-38 | for years 1000 to 9999 the key is four year digits, '-', two month digits, '-', two day digits |
| Records.HolidaySet | api/admin/lock-salary.js:101 | a key is in the holiday set exactly when some holiday row with `is_holiday` set has that date |
| Records.IndexByDate | api/admin/lock-salary.js:123 | the attendance map has a key exactly for the dates of the rows, and maps each to one of the rows with that date |
| Records.IndexByDateLastWins | scripts/lock_salary_cycle.js:120 | a row with no later row for its date is the one the map holds for that date |
| Auth.DropSpaces | api/admin/lock-salary.js:46 | dropping the leading `\s` run leaves a suffix that starts with a non-space, and everything dropped was a space |
| Auth.StripBearer | api/admin/lock-salary.js:46 | `replace(/^Bearer\s+/i, '')`; `StripBearerMeaning`, `EmptyToken` and `BareBearerKept` state what is stripped and when |
| Auth.StripBearerMeaning | api/admin/lock-salary.js:46 | with the `Bearer\s+` prefix, the token is what follows the prefix and its whole run of spaces; without it, the header is kept whole |
| Auth.EmptyToken | api/admin/lock-salary.js:45-47 | the token is empty exactly when the header is missing or empty, or is the bearer word followed only by spaces |
| Auth.StripsAnyCaseAndSpaces | api/admin/lock-salary.js:46 | the bearer word in any letter case, then any non-empty run of spaces, is stripped to leave the token |
| Auth.StripsPrefix | api/admin/lock-salary.js:46 | "Bearer abc" gives the token "abc" |
| Auth.MixedCaseWords | api/admin/lock-salary.js:46 | the `i` flag accepts "bEaReR" and "BEARER" but not a misspelling |
| Auth.BareBearerKept | api/admin/lock-salary.js:46 | "Bearer" with no space after it is not a prefix and stays as the token |
| Auth.VerifyAdmin | api/admin/lock-salary.js:14-29 | verifyAdmin over the identity service's answers; `VerifyAdminMeaning` and `FirstRoleDecides` state when it returns an id |
| Auth.VerifyAdminMeaning | api/admin/lock-salary.js:14-29 | verifyAdmin returns an id exactly when the identity service accepts the token, the user has an id, and the first profile row for that id has the role 'admin'; the id returned is the user's |
| Auth.FirstRoleDecides | api/admin/lock-salary.js:27-28 | only the first profile row decides: an 'admin' row after another role is not admin, and a first 'admin' row is |
| Eligibility.EligibilityCalendar | api/admin/lock-salary.js:108-118 | the calendar the cursor loop builds; `BuildCalendar` is proved equal to it, and `CalendarCharacterization`, `CalendarComplete` and `CalendarSize` state which dates it holds, in what order and how many |
| Eligibility.EffectiveStart | api/admin/lock-salary.js:109 | the effective start is the join date or the period start, whichever is later (either one when they are the same day) |
| Eligibility.MarkDays | api/admin/lock-salary.js:116-117 | each eligible date becomes one entry with its key, flagged holiday exactly when the key is in the holiday set |
| Eligibility.BuildCalendar | api/admin/lock-salary.js:110-118 | the cursor loop pushes exactly the marked non-Sunday dates from the effective start through the end, and `totalEligible` is the number of entries |
| Eligibility.MarkDay | api/admin/lock-salary.js:114-117 | the entry pushed for a non-Sunday date is its key, flagged holiday exactly when the key is in the holiday set |
| Eligibility.CalendarCharacterization | api/admin/lock-salary.js:108-118 | the calendar lists, in strictly increasing order and once each, non-Sunday dates between max(join date, start) and end inclusive; each is flagged holiday exactly when its key is in the holiday set; a join date after the end gives an empty calendar |
| Eligibility.CalendarComplete | scripts/lock_salary_cycle.js:99-111 | conversely, every non-Sunday date from max(join date, start) through the end is in the calendar with its key and holiday flag |
| Eligibility.CalendarSize | scripts/lock_salary_cycle.js:97-111 | `totalEligible` is the number of non-Sunday days from max(join date, start) through the end |
| Eligibility.WholeWeeks | api/admin/lock-salary.js:112-117 | any k consecutive whole weeks hold exactly 6k non-Sunday days |
| Earnings.DayCredit | api/admin/lock-salary.js:126-132 | one day's credit: the rate for a holiday, nothing without a row, an abort for a pending row, nothing when denied, the rate when present, half of it for a half day; `Units` and `CreditSumIsUnits` state it as paid units |
| Earnings.CreditSum | api/admin/lock-salary.js:124-133 | the credits of the days in order, aborting at the first pending regular day; `AccumulateCredits` is proved equal to it, and `CreditSumIsUnits`, `HasPendingRegularIff` and `AbortIsFinal` state its value and when it aborts |
| Earnings.EarningFor | api/admin/lock-salary.js:119-134 | one employee's outcome from the calendar: skipped, aborted or the earnings row; `EarningForMeaning` and `EarningForBounds` state each case and the row's fields |
| Earnings.Units | scripts/lock_salary_cycle.js:124-146 | a day's paid units are 0, 1/2 or 1, and a holiday always pays 1 |
| Earnings.AccumulateCredits | api/admin/lock-salary.js:124-133 | the credit loop returns the abort exactly as the credit specification does, and otherwise its sum |
| Earnings.CreditSumIsUnits | scripts/lock_salary_cycle.js:122-147 | with a pending regular day the sum aborts; otherwise it is the per-day rate times the paid units (holiday 1, present 1, half day 1/2; no row, denied, on leave, absent and other statuses 0) |
| Earnings.HasPendingRegularIff | api/admin/lock-salary.js:129 | the recursive pending test holds exactly when some regular day has a row awaiting approval |
| Earnings.AbortIsFinal | scripts/lock_salary_cycle.js:134-137 | once the credits of a prefix of the days abort, the credits of all the days abort |
| Earnings.PaidUnitsBounds | api/admin/lock-salary.js:125-133 | the paid units lie between the number of holidays and the number of eligible days |
| Earnings.CreditSumBounds | api/admin/lock-salary.js:124-133 | at a non-negative rate a sum that does not abort lies between 0 and the rate times the eligible days |
| Earnings.HolidaysIgnoreAttendance | api/admin/lock-salary.js:126 | two attendance maps that agree on the regular days give the same credits: a holiday's row never matters |
| Earnings.AllPresentEarnsEveryDay | scripts/lock_salary_cycle.js:124-147 | when every regular day has an approved present row, the sum is the rate times the number of eligible days |
| Earnings.CreditRowMeaning | api/admin/lock-salary.js:120-134 | the row aborts exactly when a regular day is pending; otherwise it is the employee's row for the cycle, with the salary, the eligible-day count, the rate and the rounded pay for the paid units |
| Earnings.EarningForMeaning | scripts/lock_salary_cycle.js:113-156 | an employee is skipped exactly when the calendar is empty, aborts exactly when it is not empty and a regular day is pending, and otherwise gets the row with `per_day_salary` = round6(salary / days) and `gross_earned` = round2 of the pay for the paid units |
| Earnings.CreditRowBounds | api/admin/lock-salary.js:134 | at a non-negative rate the gross lies between 0 and the rounded full pay for every eligible day |
| Earnings.EarningForBounds | scripts/lock_salary_cycle.js:115-155 | a non-negative salary gives a non-negative rate and a gross between 0 and the rounded full pay |
| Earnings.RoundedBounds | api/admin/lock-salary.js:134 | rounding to cents keeps a value in [0, hi] within [0, round2(hi)] |
| Earnings.LateJoinerSkipped | api/admin/lock-salary.js:108-119 | an employee who joins after the period end gets no row |
| Money.RoundMagnitude | api/admin/lock-salary.js:120 | the rounded magnitude times the scale is floor(x * scale + 1/2), within half a step of x |
| Money.ToFixed | api/admin/lock-salary.js:120 | `Number(x.toFixed(k))` is on the 10^-k grid, within half a step of x, and not negative for a non-negative x |
| Money.ToFixedKeepsGrid | api/admin/lock-salary.js:134 | a value already on the grid rounds to itself |
| Money.ToFixedIdempotent | api/admin/lock-salary.js:134 | rounding twice is rounding once |
| Money.ToFixedMonotone | scripts/lock_salary_cycle.js:155 | rounding preserves order |
| Money.TieAwayFromZero | api/admin/lock-salary.js:120 | a tie rounds away from zero: 0.0000005 to 0.000001, -0.0000005 to -0.000001, and the exact value 2.675 to 2.68 (the JavaScript double nearest 2.675 lies just below it and gives 2.67) |
| Money.PerDayApproximation | scripts/lock_salary_cycle.js:115 | the exact daily quotient of the salary over n eligible days, rounded to six places and paid for all n days, differs from the monthly salary by at most n half-millionths |
| LockEngine.RunProfiles | api/admin/lock-salary.js:106-135 | the loop over employees as a function of their outcomes; `ProfileLoop` is proved equal to it and `RunProfilesMeaning` ties it to the independently defined earned rows |
| LockEngine.LockRun | api/admin/lock-salary.js:77-141 | the whole run as a function of the store's answers; `Lock` is proved equal to it, and `GateRefuses`, `PastGate`, `MidRunAbort` and `LockedBatch` state its cases |
| LockEngine.WorkingNotSkipped | api/admin/lock-salary.js:119 | an employee is skipped exactly when their calendar for the month is empty |
| LockEngine.EarnedRowOwner | api/admin/lock-salary.js:134 | an employee's row carries the cycle's id and the employee's id |
| LockEngine.NoPendingNoAbort | scripts/lock_salary_cycle.js:134-137 | when no attendance row the store returns is pending, no employee's credit loop aborts |
| LockEngine.RunProfilesMeaning | api/admin/lock-salary.js:106-135 | the profile loop aborts exactly when some employee's credit loop does; otherwise its rows are the earning employees' rows in store order, with one row and one attendance query per employee who is not skipped |
| LockEngine.RunProfilesStep | scripts/lock_salary_cycle.js:90-157 | one more employee: a skipped one or an aborted loop changes nothing; otherwise the attendance query is made and the row pushed, or the loop aborts |
| LockEngine.AbortedPrefix | api/admin/lock-salary.js:129 | once the loop has aborted, the remaining employees change nothing |
| LockEngine.QueriesAreAttendance | api/admin/lock-salary.js:121-122 | the loop's only store calls are attendance queries |
| LockEngine.EarnedRowsFrom | scripts/lock_salary_cycle.js:149-156 | every row of the batch is the row of one of the employees |
| LockEngine.PastGate | api/admin/lock-salary.js:88-141 | past the gate one cycle is added; the outcome is the mid-run abort or the lock with the cycle id and row count; the rows are added unless the run aborted; the calls are the pending query, the cycle insert, the holiday and profile queries, the attendance queries and, for a non-empty batch, its insert |
| LockEngine.GateRefuses | api/admin/lock-salary.js:82-86 | the lock is refused at the gate exactly when the pending count is positive; it then reports that count, adds no cycle and no earnings, and makes no call but the pending query |
| LockEngine.GatePassedCreatesCycle | api/admin/lock-salary.js:89-104 | past the gate exactly one cycle row is added, for the requested month and admin, numbered after the existing cycles, inserted right after the pending query and before the holiday and profile reads |
| LockEngine.LockedMeansNewCycle | scripts/lock_salary_cycle.js:68-79 | a run that locks passed the gate and added exactly its one cycle |
| LockEngine.MidRunAbort | scripts/lock_salary_cycle.js:77-137 | the run aborts mid-way exactly when the gate passes and some employee's credit loop meets a pending row; the cycle then stays, and no earnings are inserted |
| LockEngine.LockedBatch | api/admin/lock-salary.js:134-141 | a locked run reports the new cycle's id, adds exactly the earning employees' rows in store order, reports their count, and ends with the batch insert exactly when there is a row |
| LockEngine.RunKeepsSerialIds | api/admin/lock-salary.js:89-97 | a run keeps the cycle ids serial; this is a property of the model's stand-in for the database key, since the program takes whatever id the store returns |
| LockEngine.LockTwiceTwoCycles | scripts/lock_salary_cycle.js:76-79 | nothing prevents a second lock of the same month: two runs past the gate leave two cycle rows for it; that their ids differ rests on the model's serial stand-in for the database key |
| LockEngine.LockedRowsOwned | scripts/lock_salary_cycle.js:149-161 | every row a locked run inserts belongs to the new cycle and is the row of one of the employees |
| LockEngine.SkippedProfiles | scripts/lock_salary_cycle.js:113 | each employee is skipped exactly when their calendar for the month is empty |
| LockEngine.NoPendingLocks | api/admin/lock-salary.js:82-141 | with nothing pending at the gate or in the attendance rows, the run locks |
| LockEngine.Store.CountPending | api/admin/lock-salary.js:82-83 | the gate's query returns the pending count, logs one pending query and changes no table |
| LockEngine.Store.InsertCycle | api/admin/lock-salary.js:89-97 | the new cycle row gets the next serial id, is appended to the cycles table, and is logged |
| LockEngine.Store.ReadHolidays | api/admin/lock-salary.js:100 | the holiday query returns the month's holiday rows and is logged |
| LockEngine.Store.ReadProfiles | api/admin/lock-salary.js:104 | the profile query returns the salaried active employees and is logged |
| LockEngine.Store.ReadAttendance | api/admin/lock-salary.js:121-122 | the attendance query returns the employee's rows (none when the store has none) and is logged |
| LockEngine.Store.InsertEarnings | api/admin/lock-salary.js:136-139 | the batch is appended to the earnings table and logged |
| LockEngine.ProfileStep | api/admin/lock-salary.js:108-134 | one employee's calendar, rate, attendance read and credit loop give that employee's outcome; only an employee with eligible days reads attendance |
| LockEngine.ProfileLoop | scripts/lock_salary_cycle.js:90-157 | the loop over employees, stopping at the first abort, yields the abort flag, rows and attendance queries of the profile-loop specification |
| LockEngine.Lock | api/admin/lock-salary.js:77-141 | one run leaves the outcome, the new cycle and earnings rows, and the call log that the run specification gives for the store's answers |
| LockEngine.LockWith | scripts/lock_salary_cycle.js:64-161 | the same, once the month's range and keys are known |
| LockEngine.PastGateRun | api/admin/lock-salary.js:88-141 | the same, past a gate that found nothing pending |
| LockEngine.OpenCycle | scripts/lock_salary_cycle.js:76-86 | the cycle row is inserted, then the holidays and employees are read, in that order; the loop context is that of the new cycle |
| LockEngine.RunAndInsert | api/admin/lock-salary.js:106-139 | the profile loop, then the batch insert exactly when the loop did not abort and produced rows |
| HttpAdapter.Token | api/admin/lock-salary.js:45-46 | the token is empty without an Authorization header, and is the header itself when it has no bearer prefix |
| HttpAdapter.Admit | api/admin/lock-salary.js:45-75 | 401 exactly for an empty token; 403 exactly for a non-empty token that verifyAdmin rejects; admitted exactly when the admin check passes and the body has a truthy year and month, with those values and the admin's id; every refusal is 400, 401 or 403 with an error body |
| HttpAdapter.Respond | api/admin/lock-salary.js:84-141 | 200 exactly for a lock, otherwise 400; the pending body with its count exactly for a refusal at the gate; the lock body carries the cycle id and the inserted count |
| HttpAdapter.RespondReadBack | api/admin/lock-salary.js:85-141 | every outcome can be read back from its response, so distinct outcomes give distinct responses |
| HttpAdapter.Handle | api/admin/lock-salary.js:41-141 | the handler's response is the one the request specification gives; a refused request leaves the store untouched; an admitted one changes it exactly as the engine's run does |
| HttpAdapter.MissingHeaderIs401 | api/admin/lock-salary.js:45-47 | a request with no Authorization header, or one that is only the bearer word and spaces, gets 401 and never reaches the store |
| HttpAdapter.PendingGateIs400 | api/admin/lock-salary.js:77-86 | an admitted request with pending rows gets 400 with the pending count, and no cycle or earnings are written |
| HttpAdapter.OkReportsCycle | api/admin/lock-salary.js:88-141 | a 200 means the request was admitted, one cycle was added for the month by the admin, numbered after the existing ones, and the body reports that id and the number of rows written |
| CliAdapter.ToNumber | scripts/lock_salary_cycle.js:18-28 | `Number` of an argv value: a number is itself, and a non-zero result comes only from a truthy value, so a falsy one never passes the `!Number(...)` test |
| CliAdapter.Or | scripts/lock_salary_cycle.js:20-22 | the JavaScript `or` of two arguments is one of them, and is truthy exactly when one of them is |
| CliAdapter.ParseArgs | scripts/lock_salary_cycle.js:18-28 | each field is read from its long flag when that is truthy and from its one-letter alias otherwise; the arguments are accepted exactly when the year and month so read are non-zero numbers and one of the admin flags is truthy, and the admin id is then non-empty |
| CliAdapter.LongFlagFirst | scripts/lock_salary_cycle.js:20-22 | a truthy long flag wins over its alias, and a falsy one falls back to it |
| CliAdapter.BannerMonth | scripts/lock_salary_cycle.js:61 | the banner starts with "Locking salary cycle for " and writes the month with two digits |
| CliAdapter.Report | scripts/lock_salary_cycle.js:70-163 | exit status 0 exactly for a lock, with the success line; otherwise status 1, nothing more on stdout and something on stderr; the gate's refusal prints the pending count; the mid-run line is printed exactly for a mid-run abort |
| CliAdapter.RunScript | scripts/lock_salary_cycle.js:59-164 | the script's exit status and console lines are the ones the script specification gives; a missing argument leaves the store untouched; otherwise the store changes exactly as the engine's run does |
| CliAdapter.MissingArgumentExits | scripts/lock_salary_cycle.js:23-26 | a falsy admin, year or month exits with status 1 and the usage line, before any output or store call |
| CliAdapter.PendingGateExits | scripts/lock_salary_cycle.js:68-74 | pending rows at the gate exit with status 1, printing the refusal and the pending count; no cycle or earnings are created |
| CliAdapter.SuccessMeansLocked | scripts/lock_salary_cycle.js:159-163 | exit status 0 means the arguments were there, nothing was pending at the gate, one cycle was created for the month by the admin, and stdout is the banner then the success line |
| Scenarios.February2025 | api/admin/lock-salary.js:31-35 | February 2025 runs from day 20120, a Saturday, through day 20147 |
| Scenarios.FourteenthKey | api/admin/lock-salary.js:37-39 | 14 February 2025 has the key "2025-02-14" |
| Scenarios.CalendarOfWeeks | scripts/lock_salary_cycle.js:97-111 | a calendar whose span from the effective start through the end is k whole weeks has 6k days |
| Scenarios.FullMonthDays | api/admin/lock-salary.js:110-118 | whoever joined by 1 February has 24 eligible days in February 2025, whatever the holidays |
| Scenarios.FourteenthIsHoliday | api/admin/lock-salary.js:116 | with a holiday row for the 14th, the calendar holds that Friday flagged as a holiday |
| Scenarios.MidMonthJoinerDays | scripts/lock_salary_cycle.js:93-111 | whoever joined on 15 February has 12 eligible days |
| Scenarios.FebruaryRates | api/admin/lock-salary.js:120-134 | 28000 over 24 days is 1166.666667 a day and 24 such days round to 28000.00; over 12 days it is 2333.333333 a day and 12 such days round to 28000.00 |
| Scenarios.FullPay | scripts/lock_salary_cycle.js:122-156 | when every regular day is approved present, the gross is the rounded pay for every eligible day |
| Scenarios.FullMonthExample | api/admin/lock-salary.js:107-134 | an employee who joined before February, paid 28000, present on every regular day, gets one row with 24 eligible days, 1166.666667 a day and a gross of 28000.00 |
| Scenarios.MidMonthExample | scripts/lock_salary_cycle.js:90-156 | the same employee joining on 15 February gets 12 days at 2333.333333 and a gross of 28000.00 |

## Left out

- Network and store plumbing: `fetch`, `fetchJSON`, `postJSON`, the REST URLs and headers, and the environment checks. The store is modelled by its answers (`StoreView`) and a log of calls.
- Failed requests to the store, and the handler's 500 path and the script's unhandled rejection that follow them: the model's store never fails.
- The 405 reply to a method other than POST, and the `getBody` stream: a body is either readable fields or an unreadable body with its error message.
- `Array.isArray(pending)`: the pending answer is modelled as its row count only.
- minimist's own parsing. An argument is modelled as absent, a number, text or a flag. Numeric text that minimist leaves as text, such as "Infinity", and fractional numbers are not modelled.
- HttpAdapter.Admit: a JSON number for year or month is modelled as an integer or NaN (None); fractional and out-of-range numbers are not modelled.
- The wall clock: `locked_at` is a parameter.
- Floating point: amounts are exact reals. `toFixed` is round half away from zero on the exact value, and the running `gross` sum has no rounding error.
- Date edge cases: join dates with a time part, and null join dates. Join dates are calendar dates (`JoinDatesValid`). The `Date` range limit of ECMA-262 (±10^8 days) is not modelled.
- LockEngine.Store.InsertCycle: the id the store returns (`cycleData[0].id`) is modelled as the next serial number, one more than the number of existing cycles.
- CliAdapter.ArgText: a numeric admin id reaches `locked_by` as a JSON number; the model uses its decimal text.
- CliAdapter.RunScript: the exit status and console lines are computed after the engine returns. The script calls `process.exit(1)` from inside the loops, which ends the process at the same point of the store's call log.
- Concurrency: two admins locking the same month at once. `LockTwiceTwoCycles` states that two locks in sequence create two cycles.
- The admin UI pages, `api/admin/add-payment.js` and `api/admin/get-cycle.js`: rendering and single-query plumbing, outside the lock.

## Notes on the source

- `toDateStrUTC` does not pad the year: only the month and the day are padded to two digits. The model follows the code. The key is in the ISO 8601 form only for years 1000 to 9999 (`DateStrIsIso8601`).
- `Date.UTC` maps the years 0 to 99 to 1900 to 1999 and normalises a month outside 1..12. `MonthRangeUTC` models both; the exact `(year, month)` form is stated for months 1..12 outside the two-digit years.
- The gate's pending query and the per-employee attendance queries are separate reads. The mid-run abort is reachable only because a row can turn pending between them.
