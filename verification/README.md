# Verified model of the HR system's leave, payroll, rate-limit and session cores

This Dafny project models the parts of the HR system where a wrong step costs money, leave or access,
and proves what those parts promise over whole runs. `dafny verify dfyconfig.toml` checks all of it.

| Modules | What they model |
|---|---|
| `Calendar` | Whole-day Gregorian dates, and the weekly, monthly and yearly accrual periods |
| `LeaveAccrual`, `AccrualRuns`, `AccrualCounts`, `AccrualOrder` | The accrual engine: one transaction per policy, proration, capped upserts; failed, retried and reordered runs, and the numbers they record |
| `AccrualLaws`, `PayrollLaws`, `LeaveLaws` | What each of these operations answers and leaves, said in dates, amounts, statuses and entries only, for every input |
| `LeaveDays`, `Payroll` | Half-day leave lengths, the share of a leave in a payroll period, and one employee's pay |
| `PayrollPeriods`, `PayrollHistories`, `PayrollRuns`, `PayrollStore` | Run, finalize (with idempotency keys) and reopen of payroll periods; where a period's results come from |
| `LeaveWorkflow`, `LeaveBalances`, `LeaveApprovals`, `LeaveService` | Create, approve, reject and cancel of leave requests, one call at a time, beside accruals and adjustments of the same balance rows; when the rows agree with the requests, and when HR has approved |
| `LeaveRaces` | The same calls as they overlap: each reads once, and makes its writes with those of others in between |
| `RateLimit`, `RateLimiter` | The fixed-window limiter and the two limiters in series that guard authentication |
| `Sessions` | Login, refresh (a check and a rotation with anything in between) and revoke |
| `Sums`, `Options` | Sums over table rows; optional values |

**Conventions.** A table is a map from its key columns to its rows. A day is an integer counted from
Monday 1 January of year 1, so day 0 is Go's zero time. Money, rates and leave lengths are `real`; a half day
is half a `real` unit and, in the reference definition, one slot of a set. A call that writes several
tables without a transaction is given how many of its writes succeed; a transaction is given what its
database does to it, including a commit that is applied but reported as failed. Classes hold the
tables as fields and change them statement by statement; their methods are proved equal to the steps of
the state machines about which the trace lemmas speak, for every choice of faults.

**What the proofs brought out** about the code as it stands, each with a history or an input that
shows it:

- A first accrual is an insert and is not capped (`FirstInsertIsUncapped`, `FirstRunExceedsCap`), and
  so the bound of `AccrualsStayWithinCaps` is the larger of cap and rate.
- Two policies of one leave type that are both due may be swapped in a run if and only if each
  employee's two credits commute: the caps are equal (or both missing), or neither binds
  (`SwapInRunIff`, `PoliciesCommuteIff`, `CapsCommute`). Nothing orders the policies or makes their
  leave types unique (`PolicyOrderMatters`).
- `employees_accrued` is a running total over the policies of the run that wrote it: it is a due
  policy's own number if and only if the policies before it in that run credited nobody
  (`CountIsOwnIff`). Retried runs always converge on balances and accrual dates, and on this column too
  if and only if each due policy was committed by an attempt before which nobody had been credited
  (`RetriedTablesAgreeIff`, `RetriedCount`, `CountsDiffer`).
- Nothing stops two unpaid leaves from overlapping. Unpaid days equal the time away exactly if none
  do (`UnpaidDaysAreTimeAway`), and the deduction exceeds a salary exactly if the unpaid days exceed
  the period (`DeductionAtMostSalary`, `OverlapTakesTwice`).
- `payslips` has no unique key (`migrations/0001_init.sql:302-309`), so the `ON CONFLICT DO NOTHING` of
  the finalizing insert never applies: after a reopen whose payslip delete failed, finalizing again
  leaves some employee with payslips the results do not call for (`OnePayslipIffNoneLeft`,
  `DuplicatePayslips`).
- A finalize call can answer an error and have finalized all the same (`FailedFinalizeChangesNothing`
  says exactly when; `FinalizedWithError`). Once a key's first success is saved, a later call with it
  finalizes again exactly if its lookup fails, the period can be finalized again, the commit goes through,
  and the save fails too or is for the same period (`KeyFinalizesAgainIff`); an unsaved first success or a
  failed lookup each suffice for a second one (`KeyFinalizesTwice`).
- A re-run that fails part-way leaves its period reviewed, and finalize then accepts results of two
  runs (`MixedResults`). From a complete run on they are all of that run exactly if it found no row of
  somebody it does not pay, later re-runs, cut off or not, paid whom they came to the same, and no reopen
  deleted results (`ResultsFromOneRunIff`).
- Approve and reject accept requests that are already decided, cancel all but approved ones, and
  every call may be cut off between its writes. As long as calls do not overlap, balance rows agree with
  the requests throughout a run if and only if each call settles (`BalancesAgreeIff`,
  `DecisionAgreesIff`, `CreateAgreesIff`, `DecidedTwice`).
- Nothing keeps leave calls from overlapping: a call reads its request once and writes later, without a
  lock. On any interleaving the rows, with the days on their way to them, agree with the requests if and
  only if each status write finds its request still open, each row write finds its row, and no call ends
  owing days (`RacesBalanceIff`). A cancellation overtaken by an approval, and an approval that overtakes
  the counting of a new request's days, are the failures (`CancelOvertaken`, `ApprovedBeforeCounted`).
  Of the HR gates, entries, used days and the need for HR survive overlaps (`RaceGateIff`, `EntryIff`,
  `UsedGrowsByHROnly`); an approval that read a request before it came to wait for HR may skip HR, and
  only such a one (`SkipNeedsStaleRead`, `HRSkipped`).
- Where the policy asks for HR at each step, a first HR approval cut off between the status and the
  approval entry leaves an approved request without an entry, and nothing else does (`HRGateIff`,
  `RaceGateIff`, `ApprovedWithoutEntry`).
- A request reads the limiter's clock (`ratelimit.go:149`) before it waits for the mutex (151), so
  concurrent requests may be counted out of order of their readings. With readings at most a skew out
  of order, an interval admits at most 2·limit − 1 requests of a key, for all traces, if and only if it
  is no longer than the window and, unless the limit is one, interval and skew together exceed the
  window by at most one tick (`AlwaysBoundedIff`); for intervals as long as the window that means
  readings in order up to one tick. With more skew, 3·limit − 2 can get through (`SkewExceeds`).
- A client that waits exactly `Retry-After` seconds is refused again unless less than one second was
  left (`RetryAfterTooEarly`, `RefusedAgain`).
- A refresh that loses a race is answered with a token that is never accepted (`RacingRefreshes`,
  `NewTokenAcceptedIff`, `LostRace`), and a logout that loses one ends nothing (`RevokeEndsLoginIff`,
  `LogoutMisses`).

## Model

| member | source | states |
|---|---|---|
| Calendar.CivilRoundTrip | internal/domain/leave/accrual.go:105-120 | Every day decomposes into a valid year, month and day, and building the date from them gives the day back |
| Calendar.CivilUnique | internal/domain/leave/accrual.go:105-120 | No other valid civil date names that day |
| Calendar.YearLength | internal/domain/leave/accrual.go:141-149 | A year is as long as its months, by the leap rule |
| Calendar.PeriodBrackets | internal/domain/leave/accrual.go:105-142 | The period start lies at or before the date, and the date before the start plus one period, for weeks that reach into another month or year too |
| Calendar.PeriodConstant | internal/domain/leave/accrual.go:105-142 | Two dates have the same period start if and only if one lies in the other's period |
| Calendar.PeriodStartFixed | internal/domain/leave/accrual.go:105-120 | A period start is its own period start |
| Calendar.PeriodStartMonotone | internal/domain/leave/accrual.go:105-120 | A later date never has an earlier period start |
| Calendar.PeriodsTile | internal/domain/leave/accrual.go:105-142 | The end of a period is the start of the next: no gap, no overlap |
| Calendar.MonthLengths | internal/domain/leave/accrual.go:105-142 | Months have their usual lengths |
| Calendar.KnownDays | internal/domain/leave/accrual.go:105-120 | 1 January of year 1 is the zero time and a Monday, 1 January 1970 a Thursday, and weekdays follow each other |
| Calendar.WeeksStartOnMonday | internal/domain/leave/accrual.go:105-126 | A weekly period starts on a Monday and lasts seven days |
| Calendar.MonthsStartOnFirst | internal/domain/leave/accrual.go:105-134 | A monthly period runs from the first of its month to the first of the next, over the year's end too |
| Calendar.YearsStartOnFirst | internal/domain/leave/accrual.go:105-142 | A yearly period runs from one first of January to the next |
| LeaveAccrual.ProrationBounds | internal/domain/leave/accrual.go:122-151 | A late starter's credit lies in [0, rate), and is zero exactly if the start is at or past the period's end |
| LeaveAccrual.ProrationAntitone | internal/domain/leave/accrual.go:122-151 | Starting later never earns more |
| LeaveAccrual.AccrualAtMostRate | internal/domain/leave/accrual.go:61-68 | No credit that is made exceeds the rate, whatever the rate's sign |
| LeaveAccrual.FirstInsertIsUncapped | internal/domain/leave/store_accrual.go:79-87 | A credit keeps a row within the cap if and only if the row existed or the accrual fits by itself |
| LeaveAccrual.CappedFold | internal/domain/leave/store_accrual.go:79-87 | Any number of capped accruals of an existing row equal one capped accrual of their sum |
| LeaveAccrual.EmployeeOrderIrrelevant | internal/domain/leave/accrual.go:61-88 | Every order in which the employee map may be iterated leaves the rows that one simultaneous credit would |
| LeaveAccrual.CreditLoop | internal/domain/leave/accrual.go:61-88 | The employee loop, in an undetermined order, credits exactly the employees with something to earn, once each, and counts them; it fails exactly if the failing upsert is reached, and never counts more |
| LeaveAccrual.LeaveDatabase.ApplyAccruals | internal/domain/leave/accrual.go:26-103 | For every choice of faults, the tables afterwards are those of a fault-free run over the policies committed before the run stopped; the summary counts the credits of the policies gone through, and beside an error at most the employees of the policy it stopped at as well |
| LeaveAccrual.LeaveDatabase.ProcessPolicy | internal/domain/leave/accrual.go:34-98 | A policy is skipped, credited and recorded, or rolled back without trace; a commit that reports failure may have been applied |
| LeaveAccrual.LeaveDatabase.Transaction | internal/domain/leave/accrual.go:50-97 | All credits and the recorded period start become visible together or not at all |
| AccrualRuns.AtMostOneCreditPerPeriod | internal/domain/leave/accrual.go:40-96 | Over any serial sequence of runs, with any clocks, policies, employees and faults, the credited period starts of a policy strictly increase |
| AccrualRuns.ClocksOfOnePeriod | internal/domain/leave/accrual.go:105-142 | Two moments with the same period starts prorate alike |
| AccrualRuns.Resume | internal/domain/leave/accrual.go:40-48 | A run over the state another left behind skips what that one committed and carries on from there |
| AccrualRuns.RetryConverges | internal/domain/leave/accrual.go:34-100 | However many runs fail, and wherever, balances and accrual dates are those of one fault-free run over the policies the furthest of them committed |
| AccrualRuns.OneCompletedRunSuffices | internal/domain/leave/accrual.go:34-100 | Once one of the runs has completed, they are those of a single fault-free run, and later runs change nothing |
| AccrualRuns.ResumeBeyond | internal/domain/leave/accrual.go:40-90 | A resumed run leaves the balances and dates of the single run, and its running total of employees is short of the single run's by that of the policies it skipped |
| AccrualCounts.RecordedCount | internal/domain/leave/accrual.go:87-90 | A run records for each due policy the employees credited by it and by all policies before it, and nothing for others |
| AccrualCounts.CountIsOwnIff | internal/domain/leave/accrual.go:87-90 | The number recorded for a due policy is its own if and only if the policies before it in the run credited nobody |
| AccrualCounts.RetriedCount | internal/domain/leave/accrual.go:34-100 | Along failing and retried runs, a due policy's number leaves out what had been credited before the attempt that committed it |
| AccrualCounts.RetriedTablesAgreeIff | internal/domain/leave/accrual.go:34-100 | Completed retries leave all three columns as a single fault-free run does if and only if each due policy was committed by an attempt before which nobody had been credited |
| AccrualCounts.CountsDiffer | internal/domain/leave/accrual.go:87-90 | From empty tables: a single run records more for its second policy than that credited, a cut-off and a complete run its own number |
| AccrualLaws.RunCreditsWhoIsBehind | internal/domain/leave/accrual.go:34-98 | A run credits exactly the policies with a period for which no date, or one before the period that holds the moment of the run, stood there, each for that period |
| AccrualLaws.RunBringsUpToDate | internal/domain/leave/accrual.go:40-96 | After a run each policy's date is that period's start if it was behind, and what it was otherwise; no policy with a period is left behind |
| AccrualLaws.AccrualEarned | internal/domain/leave/accrual.go:61-68 | The whole rate for who had joined by the period's start, in proportion to the days left for who joined within it, nothing after |
| AccrualLaws.EarnsOneAmount | internal/domain/leave/accrual.go:122-151 | That leaves one amount |
| AccrualLaws.RunCreditsRow | internal/domain/leave/accrual.go:61-88 | Where a run comes to a policy that is behind, each active employee's row of its type takes what they earn, whole if new, up to entitlement and carry-over if there is an entitlement; every other row and column stays |
| AccrualLaws.OwnCreditsAreEarners | internal/domain/leave/accrual.go:66-88 | A policy counts the active employees who join before its period's end, if its rate is positive |
| AccrualLaws.SummaryCounts | internal/domain/leave/accrual.go:87-102 | A completed run's summary is the number of policies that were behind, and of all the employees they credited |
| AccrualLaws.RunStopsWhereBitten | internal/domain/leave/accrual.go:34-98 | A run goes through its policies to the first whose fault bites: a failed read, a failed step of a policy that is behind, or a failed upsert for somebody who earns something |
| AccrualOrder.CapsCommute | internal/domain/leave/store_accrual.go:69-87 | Two credits of one row, there already or not, capped or not, may be swapped if and only if their caps are equal or neither binds |
| AccrualOrder.PoliciesCommuteIff | internal/domain/leave/accrual.go:34-98 | From any tables, two policies applied in either order leave the same balances and dates if and only if they do not compete for one leave type while both due, or every employee's credits commute |
| AccrualOrder.SwapInRunIff | internal/domain/leave/accrual.go:34-100 | The same for two adjacent policies of a run, at the point where the run comes to them |
| AccrualOrder.FirstRunExceedsCap | internal/domain/leave/store_accrual.go:79-87 | From empty tables, one run of a policy with a rate above its cap leaves a balance above the cap |
| AccrualOrder.PolicyOrderMatters | internal/domain/leave/accrual.go:34-100 | From empty tables, two policies of one type with different caps leave different balances by their order |
| AccrualOrder.ReachedIsUnique | internal/domain/leave/accrual.go:34-100 | Crediting each policy of a set once has one result, whatever the order |
| AccrualOrder.RunIsReached | internal/domain/leave/accrual.go:34-100 | A fault-free run over one policy per leave type credits each policy once, as if alone |
| AccrualOrder.ReorderedRetryConverges | internal/domain/leave/accrual.go:34-100 | With one policy per leave type, runs that fail anywhere and each read the policies in their own order leave the balances and dates of one fault-free run in any order, once each policy is committed |
| AccrualOrder.AccrualsStayWithinCaps | internal/domain/leave/accrual.go:70-86 | With one capped policy per leave type, no sequence of runs takes a balance above both the cap and the rate |
| LeaveDays.UnpaidDaysCountSlots | internal/transport/http/handlers/payroll/handlers.go:493-513 | The clipped-interval arithmetic is half the number of half-day slots that leave and period share |
| LeaveDays.RequestDaysCountSlots | internal/domain/leave/logic.go:17-38 | A request is refused exactly if it is reversed or covers no slot, and otherwise is half its slots long |
| LeaveDays.FilterChangesNothing | internal/domain/payroll/store_data.go:365-376 | The query's overlap condition changes no sum |
| LeaveDays.SplitPeriod | internal/transport/http/handlers/payroll/handlers.go:493-513 | Cutting a period in two splits the unpaid days, half-day ends included |
| LeaveDays.PeriodsMerge | internal/transport/http/handlers/payroll/handlers.go:493-513 | The unpaid days of consecutive periods add up to those of the whole stretch |
| LeaveDays.PeriodsTileLeave | internal/transport/http/handlers/payroll/handlers.go:492-514 | If consecutive periods cover an accepted leave, their unpaid days add up to the length of the request |
| LeaveDays.SlotInOnePeriod | internal/transport/http/handlers/payroll/handlers.go:494-501 | Each half day of the stretch falls in exactly one period |
| LeaveDays.SumUnpaidDays | internal/transport/http/handlers/payroll/handlers.go:489-515 | The window loop adds up the shares of all the leaves |
| LeaveDays.UnpaidDaysAreTimeAway | internal/transport/http/handlers/payroll/handlers.go:489-515 | Unpaid days are at least the time away in the period, and equal to it if and only if no two leaves overlap there |
| LeaveDays.UnpaidWithinPeriod | internal/transport/http/handlers/payroll/handlers.go:489-518 | Leaves that do not overlap have at most the period's days, however many they are |
| Payroll.ComputePayroll | internal/domain/payroll/calc.go:8-20 | The loop leaves gross as salary plus earnings, deductions as their sum, and net as the difference |
| Payroll.LineOrderIrrelevant | internal/domain/payroll/calc.go:8-20 | Permuting the lines changes no amount |
| Payroll.AdjustmentsMoveNet | internal/transport/http/handlers/payroll/handlers.go:478-487 | Signed adjustments become non-negative lines that move net by their signed sum |
| Payroll.DeductionAtMostSalary | internal/transport/http/handlers/payroll/handlers.go:517-525 | The leave deduction is at most the salary if and only if there is no salary or the unpaid days fit in the period |
| Payroll.DisjointLeaveAtMostSalary | internal/transport/http/handlers/payroll/handlers.go:489-525 | Leaves that do not overlap never cost more than the salary |
| Payroll.OverlapTakesTwice | internal/transport/http/handlers/payroll/handlers.go:489-525 | Two leaves over the whole period cost twice the salary |
| Payroll.PayEmployee | internal/transport/http/handlers/payroll/handlers.go:455-527 | The body of the employee loop, with its adjustment and window loops, computes the pay that NetForm describes |
| Payroll.NetForm | internal/transport/http/handlers/payroll/handlers.go:472-527 | Net is salary plus earnings less deductions plus signed adjustments less the leave deduction, and gross is deductions plus net |
| Payroll.PayIgnoresLineOrder | internal/transport/http/handlers/payroll/handlers.go:472-527 | The order of the input lines does not change an employee's pay |
| PayrollLaws.SumOfOneMore | internal/domain/payroll/calc.go:8-20 | Each line counts for its own kind, by its amount |
| PayrollLaws.TotalUnpaidOneMore | internal/transport/http/handlers/payroll/handlers.go:489-515 | Each leave counts for the half days it shares with the period, overlaps included |
| PayrollLaws.OverlapsIff | internal/domain/payroll/store_data.go:365-376 | The query keeps exactly the leaves that share a day with the period |
| PayrollLaws.DeductionIsShare | internal/transport/http/handlers/payroll/handlers.go:517-525 | The deduction is to the salary as the unpaid days are to the period's; no salary or no period, no deduction |
| PayrollLaws.PayInFull | internal/transport/http/handlers/payroll/handlers.go:455-527 | Gross is salary, earnings and gains among the adjustments; deductions are the deduction lines, the losses and the salary's share of the unpaid days; net is their difference; what could not be read counts for nothing |
| PayrollLaws.LeaveCostsItsShare | internal/transport/http/handlers/payroll/handlers.go:489-527 | Leaves that do not overlap cost of the salary what the half days away are of the period's, and leave gross alone |
| PayrollLaws.RunAnswers | internal/transport/http/handlers/payroll/handlers.go:422-581 | Each answer of a run, and the status it leaves, exactly when |
| PayrollLaws.RunPaysItsSchedule | internal/transport/http/handlers/payroll/handlers.go:448-453 | A complete run pays each employee of the period's schedule, or of none, and changes no other row |
| PayrollLaws.FinalizeAnswers | internal/domain/payroll/store_data.go:437-480 | Each answer of finalizing, exactly when: no period, not reviewed, or neither a result nor a payslip |
| PayrollLaws.FinalizeWrites | internal/domain/payroll/store_data.go:452-463 | Finalizing sets the status and adds one payslip for each of the period's results, and nothing else |
| PayrollLaws.FinalizeKeyAnswers | internal/transport/http/handlers/payroll/handlers.go:594-675 | The answers that come from the key: missing, replayed, in conflict |
| PayrollLaws.ReopenWrites | internal/transport/http/handlers/payroll/handlers.go:1006-1041 | Each answer of a reopen, exactly when, and what it leaves in each table |
| PayrollLaws.CreateWrites | internal/domain/payroll/store_data.go:189-199 | A new period is a draft, as dated |
| PayrollLaws.TotalsWritten | internal/domain/payroll/store_data.go:707-717 | A result written moves its own period's totals by the difference, and no other's |
| PayrollPeriods.FinalizedAlwaysHavePayslips | internal/domain/payroll/store_data.go:424-487 | After any serial history of calls, failing anywhere, a finalized period has at least one payslip, and at least one for each of its results |
| PayrollPeriods.FinalizedIsFrozen | internal/transport/http/handlers/payroll/handlers.go:428-431 | A finalized period's status, results and payslips stay as they are until it is reopened |
| PayrollPeriods.FailedFinalizeChangesNothing | internal/transport/http/handlers/payroll/handlers.go:603-675 | A finalize call that answers an error has changed nothing, except exactly if the period could be finalized and the commit was lost, or a failed key lookup hid a key of another period |
| PayrollPeriods.OnePayslipIffNoneLeft | internal/domain/payroll/store_data.go:456-463 | Finalizing leaves exactly one payslip per result if and only if none was left over |
| PayrollPeriods.PayslipsMatchIff | internal/transport/http/handlers/payroll/handlers.go:1022-1036 | Along any history there is at all times exactly one payslip per result of a finalized period, and no other, if and only if no reopen goes through while its payslip delete fails |
| PayrollHistories.StoredHashStaysFixed | internal/transport/http/middleware/idempotency.go:52-70 | The hash stored for a key never changes, whatever fails |
| PayrollHistories.StoredAnswers | internal/transport/http/handlers/payroll/handlers.go:603-617 | A stored key answers its stored response for the same period and a conflict for another, and changes nothing |
| PayrollHistories.SuccessIsStored | internal/transport/http/handlers/payroll/handlers.go:661-675 | A finalize that succeeds has stored its key with its response |
| PayrollHistories.KeyFinalizesOnce | internal/transport/http/handlers/payroll/handlers.go:603-675 | Once a key's first success is saved, it finalizes no more, across reopens and re-runs and whatever other calls and writes fail: each later call that can look it up replays the first response or conflicts, and changes nothing |
| PayrollHistories.FinalizesIff | internal/transport/http/handlers/payroll/handlers.go:603-675 | A call answers success if and only if its key is not seen stored, the period can be finalized, the commit goes through and the save meets no other hash; it changes anything if and only if the first two hold and nothing rolls back |
| PayrollHistories.KeyFinalizesAgainIff | internal/transport/http/handlers/payroll/handlers.go:603-675 | After a saved first success, a later call with the key finalizes again, and changes anything, in exactly the cases in which its own lookup fails and the period can be finalized again |
| PayrollRuns.PayAllHits | internal/domain/payroll/store_data.go:407-415 | A run leaves the pay of each employee it covers, whatever the table held before |
| PayrollRuns.PayAllRow | internal/transport/http/handlers/payroll/handlers.go:448-560 | The rows a run pays do not depend on what was there, and no other row changes |
| PayrollRuns.RerunChangesNothing | internal/transport/http/handlers/payroll/handlers.go:448-560 | A run that stopped part-way, run again on unchanged data, leaves the results of one complete run |
| PayrollRuns.CompleteRunIff | internal/transport/http/handlers/payroll/handlers.go:448-560 | A complete run leaves exactly its own results if and only if no row belonged to somebody it does not pay |
| PayrollRuns.RerunStepIff | internal/transport/http/handlers/payroll/handlers.go:448-565 | A re-run that gets past its checks, cut off anywhere and on any data, leaves the results the first run's if and only if it pays everybody it comes to what the first run paid them |
| PayrollRuns.ResultsFromOneRunIff | internal/transport/http/handlers/payroll/handlers.go:428-565 | From a complete run on, through any later calls and failures, a period's results are at all times exactly that run's if and only if it found no row of somebody it does not pay, later re-runs, cut off or not, paid whom they came to the same, and no reopen deleted results |
| PayrollRuns.DuplicatePayslips | migrations/0001_init.sql:302-309 | Run, finalize, reopen with the payslip delete failing, run and finalize: two payslips for one result |
| PayrollRuns.KeyFinalizesTwice | internal/transport/http/handlers/payroll/handlers.go:603-675 | With a reopen in between, one key finalizes twice if its first success was not saved, and also if the later lookup fails |
| PayrollRuns.FinalizedWithError | internal/domain/payroll/store_data.go:482-487 | A finalize whose commit is lost answers an error, and the period is finalized |
| PayrollRuns.MixedResults | internal/transport/http/handlers/payroll/handlers.go:555-565 | A complete run, a re-run on changed data that stops after one employee, and a finalize that succeeds: one employee's pay is of the second run, the other's of the first |
| PayrollHistories.AlwaysBalanced | internal/domain/payroll/store_data.go:407-415 | After any history, each result's gross is its deductions plus its net |
| PayrollHistories.JournalBalances | internal/domain/payroll/store_data.go:707-717 | After any history, the expense a period's journal debits equals the deductions and cash it credits |
| PayrollStore.PayrollTables.RunPayroll | internal/transport/http/handlers/payroll/handlers.go:422-565 | The handler, with a failure after any number of employees or of the status update, is the run step of the serial histories |
| PayrollStore.PayrollTables.UpsertResults | internal/transport/http/handlers/payroll/handlers.go:448-560 | The employee loop skips other schedules, stops at the first failure, and leaves the results of the employees before it |
| PayrollStore.PayrollTables.FinalizePeriod | internal/domain/payroll/store_data.go:424-487 | The transaction makes status and payslips visible together or not at all |
| PayrollStore.PayrollTables.SaveIdempotencyKey | internal/transport/http/middleware/idempotency.go:52-70 | The upsert stores the response unless the key has another hash, and answers a conflict exactly then |
| PayrollStore.PayrollTables.FinalizePayroll | internal/transport/http/handlers/payroll/handlers.go:594-675 | The handler, with its key lookup and save, is the finalize step of the serial histories |
| PayrollStore.PayrollTables.ReopenPeriod | internal/transport/http/handlers/payroll/handlers.go:1006-1041 | The handler, with any delete failing, is the reopen step of the serial histories |
| LeaveBalances.BalancesAgreeIff | internal/domain/leave/service.go:115-326 | Along any run of calls taken one at a time, cut off anywhere, each row's pending and used days are at all times those of its open and its approved requests if and only if every call settles, through any accruals and adjustments |
| LeaveBalances.BalancesAgree | internal/domain/leave/service.go:115-326 | If every call settles they agree throughout, requests without days included |
| LeaveBalances.DecisionAgreesIff | internal/domain/leave/service.go:180-326 | An approve, reject or cancel, complete or cut off at any write, keeps its request's row right if and only if it settles: it is refused, wrote nothing, or moves days exactly as the status moves between open, approved and closed |
| LeaveBalances.CreateAgreesIff | internal/domain/leave/service.go:122-158 | A create keeps its row right unless it was cut off between the request and its pending days |
| LeaveBalances.AllAgreeIff | internal/domain/leave/service.go:115-326 | From tables in agreement, one call leaves all rows so if and only if it settles |
| LeaveBalances.UsedStaysBacked | internal/domain/leave/service.go:115-326 | With calls cut off anywhere, used days never exceed the approved requests' days, as long as only open requests are decided |
| LeaveBalances.UsageReportAgrees | internal/domain/leave/store_data.go:619-644 | In settled runs, the usage report of each leave type equals the used days summed over the employees' rows |
| LeaveApprovals.NoStepSkipsHR | internal/domain/leave/service.go:189-214 | Under any policy and any failure, and with calls taken one at a time, only HR's own approval takes a request that waits for HR to approved |
| LeaveApprovals.UsedGrowsOnlyByHR | internal/domain/leave/service.go:207-230 | If the policy asks for HR at each step, used days grow only by HR approvals of a request of that row |
| LeaveApprovals.HRGateIff | internal/domain/leave/service.go:189-230 | If the policy asks for HR at each step, then along any run of calls taken one at a time, whatever fails, each approved request has an HR approval entry at all times if and only if no first HR approval was cut off right before its entry |
| LeaveApprovals.GrantedIff | internal/domain/leave/service.go:216-222 | Under any policy and whatever fails, a request has an HR approval entry if and only if some HR approval of it got past its second write |
| LeaveApprovals.DecidedTwice | internal/domain/leave/service.go:180-326 | From empty tables, a second complete decision on a closed request leaves its row wrong |
| LeaveApprovals.ApprovedWithoutEntry | internal/domain/leave/service.go:216-222 | From empty tables, an HR approval cut off after its first write leaves an approved request without an entry |
| LeaveLaws.ApproveAnswers | internal/domain/leave/service.go:180-245 | Each answer of an approval, exactly when; a manager is turned away exactly if the employee has a known manager whom they are not known to be |
| LeaveLaws.ApproveWrites | internal/domain/leave/service.go:207-230 | After one write pending_hr if the policy asks for HR and HR is not asking, else approved; after two the entry; after three, if approved, the days moved |
| LeaveLaws.DaysUsedIffApproved | internal/domain/leave/service.go:207-230 | Complete and not refused, a request becomes approved exactly if its days are used |
| LeaveLaws.RejectAnswers | internal/domain/leave/service.go:254-292 | Each answer of a rejection, exactly when |
| LeaveLaws.RejectWrites | internal/domain/leave/service.go:273-284 | Status, rejecting entry and days off pending, in that order |
| LeaveLaws.CancelWrites | internal/domain/leave/service.go:301-326 | Each answer of a cancellation, exactly when; status and days off pending, and no entry |
| LeaveLaws.CreateWrites | internal/domain/leave/service.go:115-159 | The request, pending; its days, in its row or a new one; its manager's awaited entry, or pending_hr without a manager |
| LeaveLaws.AdjustWrites | internal/domain/leave/store_data.go:171-187 | An adjustment adds to one balance and leaves all else alone |
| LeaveRaces.SerialDecision | internal/domain/leave/service.go:180-326 | A decision's writes, made without interruption, are its serial step, cut off at the same write |
| LeaveRaces.SerialCreate | internal/domain/leave/service.go:122-158 | So are a create's |
| LeaveRaces.AllBalancedIff | internal/domain/leave/service.go:115-326 | From balanced books, one move of any overlapping call leaves them so if and only if a status write finds its request open, a row write its row, and no call ends owing days |
| LeaveRaces.RacesBalanceIff | internal/domain/leave/service.go:115-326 | Along any interleaving, wherever it fails, each row's pending and used days with those on their way are at all times those of its open and its approved requests if and only if every move is sound in that sense |
| LeaveRaces.QuietRowsAgree | internal/domain/leave/service.go:115-326 | After a sound interleaving, once no call is under way, the rows agree with the requests |
| LeaveRaces.SkipNeedsStaleRead | internal/domain/leave/service.go:181-214 | Under any policy and on any interleaving, what takes a request that waits for HR to approved is HR's approval, or one that read the request before it came to wait |
| LeaveRaces.UsedGrowsByHROnly | internal/domain/leave/service.go:207-230 | If the policy asks for HR at each step, used days grow only by HR approvals, on any interleaving |
| LeaveRaces.RaceGateIff | internal/domain/leave/service.go:189-230 | If the policy asks for HR at each step, then along any interleaving each approved request has at all times an HR approval entry or one about to be written, if and only if no approval ends right before the only one |
| LeaveRaces.EntryIff | internal/domain/leave/service.go:216-222 | Under any policy and on any interleaving, a request has an HR approval entry if and only if some HR approval of it came to write its entry |
| LeaveRaces.CancelOvertaken | internal/domain/leave/service.go:301-326 | From empty tables: a cancellation reads, HR approves, the cancellation writes; the request is cancelled, with its days used and pending days below zero |
| LeaveRaces.HRSkipped | internal/domain/leave/service.go:181-214 | From empty tables: an approval reads a pending request while its policy lookup fails, another sends it on to HR, and the first approves it without HR |
| LeaveRaces.ApprovedBeforeCounted | internal/domain/leave/service.go:122-132 | From empty tables: a request approved before its days are counted leaves them pending, and none used |
| LeaveService.LeaveStore.CreateRequest | internal/domain/leave/service.go:115-159 | Cut off at any write, the call is the create step: request, pending days, then the manager's approval row or pending_hr |
| LeaveService.LeaveStore.ApproveRequest | internal/domain/leave/service.go:180-245 | Cut off at any write, the call is the approve step: refusals, status, entry, and used days on final approval |
| LeaveService.LeaveStore.RejectRequest | internal/domain/leave/service.go:254-292 | Cut off at any write, the call is the reject step |
| LeaveService.LeaveStore.CancelRequest | internal/domain/leave/service.go:301-326 | Cut off at any write, the call is the cancel step |
| LeaveService.LeaveStore.AddPendingBalance | internal/domain/leave/store_data.go:400-407 | Adds to the row's pending days, or inserts the row |
| LeaveService.LeaveStore.UpdateBalanceOnApproval | internal/domain/leave/store_data.go:479-486 | Moves days from pending to used in an existing row only |
| LeaveService.LeaveStore.UpdateBalanceOnReject | internal/domain/leave/store_data.go:488-495 | Takes days off pending in an existing row only |
| RateLimit.SlidingWindowBound | internal/transport/http/middleware/ratelimit.go:149-161 | With clock readings at most a skew out of counting order, a closed interval no longer than the window, and with the skew at most one tick more, admits at most 2·limit − 1 requests of a key |
| RateLimit.SlidingWindowBoundIsTight | internal/transport/http/middleware/ratelimit.go:151-161 | For every limit and window there are readings in order that reach that bound |
| RateLimit.AlwaysBoundedIff | internal/transport/http/middleware/ratelimit.go:149-161 | For windows not negative and lengths of at least a tick, the bound holds for all traces of a skew and intervals of a length if and only if the length is at most the window, and the limit is one or length and skew exceed the window by at most one tick |
| RateLimit.SkewExceeds | internal/transport/http/middleware/ratelimit.go:149-161 | With more skew there are readings by which an interval within the window admits 3·limit − 2 requests |
| RateLimit.RemainingIsExact | internal/transport/http/middleware/ratelimit.go:156-165 | Of the requests that follow before the reset, exactly the Remaining number are admitted, the first ones |
| RateLimit.RemainingIsTold | internal/transport/http/middleware/ratelimit.go:156-165 | The number a request is told is that of later requests before the reset still admitted |
| RateLimit.DecisionTells | internal/transport/http/middleware/ratelimit.go:156-192 | Admission, remaining number, whole seconds left and to wait, for every bucket and moment |
| RateLimit.ReplacedAfterReset | internal/transport/http/middleware/ratelimit.go:151-155 | The first request after the reset opens a bucket of its own and is admitted |
| RateLimit.RetryAfterTooEarly | internal/transport/http/middleware/ratelimit.go:157-192 | Waiting exactly Retry-After seconds suffices if and only if less than a second was left |
| RateLimit.RefusedAgain | internal/transport/http/middleware/ratelimit.go:150-192 | From no bucket at all, a refused request repeated exactly when told to is refused again |
| RateLimit.KeysAreIndependent | internal/transport/http/middleware/ratelimit.go:145-161 | On any interleaving, the decisions for a key are those on that key's requests alone |
| RateLimit.EveryKeyIsBounded | internal/transport/http/middleware/ratelimit.go:145-161 | The bound, under the same limit on the skew, for each key of an interleaved trace over the shared map |
| RateLimiter.Limiter.Enforce | internal/transport/http/middleware/ratelimit.go:140-181 | Changes the key's bucket only, keeps buckets unshared, and decides and reports as the trace functions do; a limit of zero or less lets all pass |
| RateLimiter.SameBucketIff | internal/transport/http/middleware/ratelimit.go:86-126 | Two requests share a bucket if and only if they have the same address, e-mail, or user of a tenant, as the limiter goes by |
| RateLimiter.OthersDoNotCount | internal/transport/http/middleware/ratelimit.go:140-161 | A request of another identity takes nothing from a request's limit, one of the same counts as the request itself would |
| RateLimiter.SecondIsRefused | internal/transport/http/middleware/ratelimit.go:140-161 | With a limit of one, a second request within the window is refused exactly if it is of the same identity |
| RateLimiter.BucketsFollowTraces | internal/transport/http/middleware/ratelimit.go:66-75 | On any interleaving of concurrent authentication requests the two bucket maps are those of the requests each limiter sees |
| RateLimiter.ServedByIp | internal/transport/http/middleware/ratelimit.go:69-75 | The requests of an address that passed both limiters, with those still between them, were all admitted for it |
| RateLimiter.ServedByEmail | internal/transport/http/middleware/ratelimit.go:69-75 | The requests served to an e-mail are those its limiter admits of the ones the address limiter let through |
| RateLimiter.SeriesKeepsBothBounds | internal/transport/http/middleware/ratelimit.go:58-84 | On any interleaving of requests between the two limiters, with each limiter's readings at most a skew out of its counting order, no address and no e-mail is served more than 2·limit − 1 times in an interval that with the skew exceeds the window by at most one tick |
| RateLimiter.SensitiveGuard.Handle | internal/transport/http/middleware/ratelimit.go:66-82 | Each scope touches its own limiters only; an authentication request counts against the e-mail only if the address let it through |
| Sessions.OneTokenPerLogin | internal/domain/auth/store.go:39-76 | In every interleaving a login has at most one accepted token, and only for its own user |
| Sessions.RotatedAwayNeverAccepted | internal/domain/auth/store.go:57-76 | A token that has been rotated away is never accepted again |
| Sessions.RacingRefreshes | internal/transport/http/handlers/auth/handlers.go:176-191 | Of racing refreshes of one token, only the first can ever have its new token accepted |
| Sessions.NewTokenAcceptedIff | internal/transport/http/handlers/auth/handlers.go:176-205 | The answered token is accepted if and only if a row still held the old one, was not revoked meanwhile, and the expiry lies ahead |
| Sessions.RevokedNeverAccepted | internal/domain/auth/store.go:52-76 | A revoked login is never live again, not even when a refresh already under way rotates its row |
| Sessions.RevokeEndsLoginIff | internal/transport/http/handlers/auth/handlers.go:150-157 | Revoking by a token ends its login if and only if the row still holds the token or was revoked before |
| Sessions.RevokeSparesOthers | internal/domain/auth/store.go:52-55 | A revoke ends the acceptance of its own token for its own user, and of nothing else |
| Sessions.LoginSparesOthers | internal/domain/auth/store.go:39-45 | A login adds its own token, unless expired, and loses no other |
| Sessions.RotationSparesOthers | internal/domain/auth/store.go:69-76 | A rotation takes its old token for its own user, and no other token is lost or gained but the new one |
| Sessions.CheckSparesAll | internal/transport/http/handlers/auth/handlers.go:176-180 | A check changes no acceptance, and lets exactly an accepted token go on |
| Sessions.ExpiryIsExact | internal/domain/auth/store.go:57-67 | As time goes on a token is accepted exactly until its login expires |
| Sessions.LostRace | internal/transport/http/handlers/auth/handlers.go:176-205 | From no session at all: two refreshes of one token are both answered, and only the first new token is accepted |
| Sessions.LogoutMisses | internal/transport/http/handlers/auth/handlers.go:150-157 | From no session at all: after a logout that a refresh overtook, the new token is still accepted |
| Sessions.SessionTable.HandleLogin | internal/transport/http/handlers/auth/handlers.go:123-148 | The session steps of a login, whose insert may fail |
| Sessions.SessionTable.CheckRefresh | internal/transport/http/handlers/auth/handlers.go:176-180 | The check passes exactly if some unexpired, unrevoked row of the user holds the token |
| Sessions.SessionTable.RotateRefresh | internal/domain/auth/store.go:69-76 | The rotation is one statement over all rows holding the old token, and is answered with the new one however many it hits |
| Sessions.SessionTable.HandleLogout | internal/transport/http/handlers/auth/handlers.go:150-157 | A logout is the revoke step, or nothing if the update fails |

## Left out

- HTTP routing, JSON and CSV encoding, PDF payslips, file storage and the web frontend: input and output only.
- Password, JWT, MFA and hashing code: tokens and request hashes are taken as unique.
- E-mail, notifications, audit and job records: their failures are only logged and nothing here reads them.
- Floating-point rounding and the storage of amounts with two decimals: amounts are exact reals.
- Times of day, time zones and daylight saving: accrual and leave arithmetic is by whole days.
- Tenants: one tenant's tables are modelled; the queries never cross tenants.
- Concurrent accrual runs, and a payroll run racing a finalize or reopen: the code does not serialise them, and these calls are taken one at a time; leave calls, refreshes and limiter decisions are not.
- LeaveStore: its methods are calls taken one at a time; that overlapping calls make the same writes, one by one, is in LeaveRaces.
- Accrual employees: a run reads them once per policy; within one run they are taken as unchanged, while between runs they may change.
- Manual balance adjustments and leave requests during accrual runs: they appear in the leave workflow, where accruals are single upserts, and not in the convergence results.
- Unsupported accrual periods in proratedAccrual: unreachable, since such policies are skipped before.
- Payroll result warnings, bank accounts, currencies and the previous net they compare with: they change no amount.
- Failed reads of a payroll period: answered as not found without a change, so not a step of their own; a failed employee list is a run cut off after no employee.
- A failed read of one row of adjustments or leaves: the row is dropped, so the lists stand for what was read.
- The replay of CSV imports by idempotency key: rows may be inserted without a stored key, and nothing is claimed of it.
- The adjustment log, document uploads, calendars, holidays and the other leave reports: single statements without shared state.
- Sensitive path classification, address and e-mail extraction and lower-casing: a request carries its scope, address and e-mail.
- The mutex of the limiter: counting is one step, in the order in which requests get it, with clock readings that may come out of that order.
- SameBucketIff: for tenant ids without a colon, and addresses that do not look like the keys of e-mails or users; the key's text alone decides.
- Retention, anonymization, data-subject export, roles, dashboards and pagination: thin queries.
