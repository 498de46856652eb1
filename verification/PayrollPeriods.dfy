/** The life of payroll periods: run, finalize with an idempotency key, and reopen, one tenant's
    handler calls taken one at a time, each of which may fail part-way. */
module PayrollPeriods {
  import opened Options
  import opened LeaveDays
  import opened Payroll

  datatype Status = Draft | Reviewed | Finalized

  datatype Period = Period(status: Status, dates: PayPeriod, schedule: string)

  datatype RowKey = RowKey(period: string, employee: string)

  datatype KeyId = KeyId(user: string, key: string)

  /** A stored idempotency key; the request hash stands for the period it was used for. */
  datatype KeyEntry = KeyEntry(hash: string, response: string)

  /** payroll_periods, payroll_results, the number of payslip rows per period and employee (no unique
      key limits it to one), and the idempotency keys of payroll.finalize. */
  datatype Ledger = Ledger(
    periods: map<string, Period>,
    results: map<RowKey, Amounts>,
    payslips: map<RowKey, nat>,
    keys: map<KeyId, KeyEntry>)

  datatype Response =
    | Created
    | Invalid
    | NotFound
    | InvalidState
    | NoResults
    | KeyConflict
    | ServerError
    | RunDone
    | FinalizeDone(body: string)
    | Replayed(body: string)
    | ReopenDone

  const FINALIZED_BODY := "finalized"

  // ---- Run -------------------------------------------------------------------------------------

  predicate InSchedule(e: EmployeeData, period: Period) {
    e.groupSchedule == "" || e.groupSchedule == period.schedule
  }

  /** Of the run's schedule, and with input lines that can be read. */
  predicate Paid(e: EmployeeData, period: Period) {
    InSchedule(e, period) && e.inputs.Some?
  }

  /** One turn of the employee loop: skipped, or its result upserted. */
  function PayOne(results: map<RowKey, Amounts>, id: string, period: Period, e: EmployeeData): map<RowKey, Amounts> {
    if Paid(e, period) then results[RowKey(id, e.id) := PayOf(e, period.dates)] else results
  }

  function PayAll(results: map<RowKey, Amounts>, id: string, period: Period, employees: seq<EmployeeData>)
    : map<RowKey, Amounts>
  {
    if employees == [] then results
    else
      var n := |employees| - 1;
      PayOne(PayAll(results, id, period, employees[..n]), id, period, employees[n])
  }

  /** How far a run gets that is cut off after `limit` employees: no further than the first employee
      of its schedule whose input lines cannot be read. */
  function Through(employees: seq<EmployeeData>, period: Period, limit: nat): (n: nat)
    ensures n <= |employees|
    ensures forall i :: 0 <= i < n && InSchedule(employees[i], period) ==> employees[i].inputs.Some?
  {
    if employees == [] || limit == 0 then 0
    else if InSchedule(employees[0], period) && employees[0].inputs.None? then 0
    else 1 + Through(employees[1..], period, limit - 1)
  }

  predicate Readable(employees: seq<EmployeeData>, n: nat, period: Period) {
    n <= |employees| && forall i :: 0 <= i < n && InSchedule(employees[i], period) ==> employees[i].inputs.Some?
  }

  /** A run stops at its limit, at the end, or at the first employee it cannot read. */
  lemma {:induction false} ThroughIs(employees: seq<EmployeeData>, period: Period, limit: nat, n: nat)
    requires Readable(employees, n, period) && n <= limit
    requires n == |employees| || n == limit || (InSchedule(employees[n], period) && employees[n].inputs.None?)
    ensures Through(employees, period, limit) == n
    decreases n
  {
    if n > 0 {
      ThroughIs(employees[1..], period, limit - 1, n - 1);
    }
  }

  /** A run that got through all its employees sets the status, if that does not fail. */
  function Run(l: Ledger, id: string, employees: seq<EmployeeData>, limit: nat, statusSet: bool): (Ledger, Response) {
    if id !in l.periods then (l, NotFound)
    else if l.periods[id].status == Finalized then (l, InvalidState)
    else
      var through := Through(employees, l.periods[id], limit);
      var paid := l.(results := PayAll(l.results, id, l.periods[id], employees[..through]));
      if through == |employees| && statusSet
      then (paid.(periods := paid.periods[id := paid.periods[id].(status := Reviewed)]), RunDone)
      else (paid, ServerError)
  }

  // ---- Finalize --------------------------------------------------------------------------------

  /** What the database did to the finalizing transaction: some statement failed and it was rolled
      back, or its commit was applied but reported as failed. */
  datatype Commit = Committed | RolledBack | CommitLost

  function PayslipCount(payslips: map<RowKey, nat>, k: RowKey): nat {
    if k in payslips then payslips[k] else 0
  }

  function AddPayslips(payslips: map<RowKey, nat>, results: map<RowKey, Amounts>, id: string): map<RowKey, nat> {
    map k | k in payslips.Keys + results.Keys && (k in payslips || k.period == id) ::
      PayslipCount(payslips, k) + if k in results && k.period == id then 1 else 0
  }

  predicate HasPayslip(payslips: map<RowKey, nat>, id: string) {
    exists k :: k in payslips && k.period == id && payslips[k] > 0
  }

  /** The transaction: lock and check the status, set it, add payslips, count them. */
  function FinalizePeriod(l: Ledger, id: string, commit: Commit): (Ledger, Response) {
    if commit == RolledBack then (l, ServerError)
    else if id !in l.periods then (l, NotFound)
    else if l.periods[id].status != Reviewed then (l, InvalidState)
    else
      var payslips := AddPayslips(l.payslips, l.results, id);
      if !HasPayslip(payslips, id) then (l, NoResults)
      else
        var done := l.(periods := l.periods[id := l.periods[id].(status := Finalized)], payslips := payslips);
        (done, if commit == Committed then FinalizeDone(FINALIZED_BODY) else ServerError)
  }

  /** The stored answer of a key, None to go on. A failed lookup is passed over. */
  function CheckKey(keys: map<KeyId, KeyEntry>, k: KeyId, hash: string, lookupFails: bool): Option<Response> {
    if lookupFails || k !in keys then None
    else if keys[k].hash != hash then Some(KeyConflict)
    else Some(Replayed(keys[k].response))
  }

  /** An upsert that leaves a row with another hash alone. */
  function SaveKey(keys: map<KeyId, KeyEntry>, k: KeyId, hash: string, response: string): map<KeyId, KeyEntry> {
    if k in keys && keys[k].hash != hash then keys else keys[k := KeyEntry(hash, response)]
  }

  function HandleFinalize(
    l: Ledger, user: string, key: string, id: string, lookupFails: bool, commit: Commit, saveFails: bool)
    : (Ledger, Response)
  {
    var k := KeyId(user, key);
    var stored := CheckKey(l.keys, k, id, lookupFails);
    if key == "" then (l, Invalid)
    else if stored.Some? then (l, stored.value)
    else
      var (after, response) := FinalizePeriod(l, id, commit);
      if !response.FinalizeDone? || saveFails then (after, response)
      else
        (after.(keys := SaveKey(after.keys, k, id, response.body)),
         if k in after.keys && after.keys[k].hash != id then KeyConflict else response)
  }

  // ---- Reopen ----------------------------------------------------------------------------------

  function DropPeriod<V>(rows: map<RowKey, V>, id: string): map<RowKey, V> {
    map k | k in rows && k.period != id :: rows[k]
  }

  /** The status goes back to draft first; a failed delete is only logged. */
  function Reopen(l: Ledger, id: string, reason: string, statusFails: bool, resultsKept: bool, payslipsKept: bool)
    : (Ledger, Response)
  {
    if reason == "" then (l, Invalid)
    else if id !in l.periods then (l, NotFound)
    else if l.periods[id].status != Finalized then (l, InvalidState)
    else if statusFails then (l, ServerError)
    else
      (l.(periods := l.periods[id := l.periods[id].(status := Draft)],
          results := if resultsKept then l.results else DropPeriod(l.results, id),
          payslips := if payslipsKept then l.payslips else DropPeriod(l.payslips, id)),
       ReopenDone)
  }

  // ---- Serial histories ------------------------------------------------------------------------

  datatype Event =
    | CreatePeriod(id: string, dates: PayPeriod, schedule: string)
    | RunPayroll(id: string, employees: seq<EmployeeData>, limit: nat, statusSet: bool)
    | FinalizePayroll(id: string, user: string, key: string, lookupFails: bool, commit: Commit, saveFails: bool)
    | ReopenPeriod(id: string, reason: string, statusFails: bool, resultsKept: bool, payslipsKept: bool)

  function Step(l: Ledger, ev: Event): (Ledger, Response) {
    match ev
    case CreatePeriod(id, dates, schedule) =>
      if id in l.periods then (l, ServerError)
      else (l.(periods := l.periods[id := Period(Draft, dates, schedule)]), Created)
    case RunPayroll(id, employees, limit, statusSet) =>
      Run(l, id, employees, limit, statusSet)
    case FinalizePayroll(id, user, key, lookupFails, commit, saveFails) =>
      HandleFinalize(l, user, key, id, lookupFails, commit, saveFails)
    case ReopenPeriod(id, reason, statusFails, resultsKept, payslipsKept) =>
      Reopen(l, id, reason, statusFails, resultsKept, payslipsKept)
  }

  function After(l: Ledger, events: seq<Event>): Ledger {
    if events == [] then l else Step(After(l, events[..|events| - 1]), events[|events| - 1]).0
  }

  function ResponseAt(l: Ledger, events: seq<Event>, i: nat): Response
    requires i < |events|
  {
    Step(After(l, events[..i]), events[i]).1
  }

  const EMPTY_LEDGER := Ledger(map[], map[], map[], map[])

  // ---- Finalized periods -----------------------------------------------------------------------

  ghost predicate FinalizedHavePayslips(l: Ledger) {
    && (forall id :: id in l.periods && l.periods[id].status == Finalized ==> HasPayslip(l.payslips, id))
    && (forall k :: k in l.results && Frozen(l, k.period) ==> PayslipCount(l.payslips, k) > 0)
  }

  lemma {:induction false} PayAllLeavesOthers(
    results: map<RowKey, Amounts>, id: string, period: Period, employees: seq<EmployeeData>, k: RowKey)
    requires k.period != id
    ensures Lookup(PayAll(results, id, period, employees), k) == Lookup(results, k)
  {
    if employees != [] {
      PayAllLeavesOthers(results, id, period, employees[..|employees| - 1], k);
    }
  }

  lemma RunKeepsPayslips(l: Ledger, id: string, employees: seq<EmployeeData>, limit: nat, statusSet: bool)
    requires FinalizedHavePayslips(l)
    ensures FinalizedHavePayslips(Run(l, id, employees, limit, statusSet).0)
  {
    if id in l.periods && l.periods[id].status != Finalized {
      var after := Run(l, id, employees, limit, statusSet).0;
      var paid := employees[..Through(employees, l.periods[id], limit)];
      forall k | k in after.results && Frozen(after, k.period)
        ensures PayslipCount(after.payslips, k) > 0
      {
        PayAllLeavesOthers(l.results, id, l.periods[id], paid, k);
        assert Lookup(after.results, k) == Lookup(l.results, k);
      }
    }
  }

  lemma FinalizeKeepsPayslips(l: Ledger, id: string, commit: Commit)
    requires FinalizedHavePayslips(l)
    ensures FinalizedHavePayslips(FinalizePeriod(l, id, commit).0)
  {
  }

  lemma ReopenKeepsPayslips(
    l: Ledger, id: string, reason: string, statusFails: bool, resultsKept: bool, payslipsKept: bool)
    requires FinalizedHavePayslips(l)
    ensures FinalizedHavePayslips(Reopen(l, id, reason, statusFails, resultsKept, payslipsKept).0)
  {
  }

  lemma StepKeepsPayslips(l: Ledger, ev: Event)
    requires FinalizedHavePayslips(l)
    ensures FinalizedHavePayslips(Step(l, ev).0)
  {
    match ev
    case CreatePeriod(_, _, _) =>
    case RunPayroll(id, employees, limit, statusSet) =>
      RunKeepsPayslips(l, id, employees, limit, statusSet);
    case FinalizePayroll(id, user, key, lookupFails, commit, saveFails) =>
      FinalizeKeepsPayslips(l, id, commit);
      var after := FinalizePeriod(l, id, commit).0;
      assert FinalizedHavePayslips(after);
    case ReopenPeriod(id, reason, statusFails, resultsKept, payslipsKept) =>
      ReopenKeepsPayslips(l, id, reason, statusFails, resultsKept, payslipsKept);
  }

  /** After any serial history of calls, wherever they fail: a finalized period has a payslip, and one
      for each of its results. */
  lemma {:induction false} FinalizedAlwaysHavePayslips(events: seq<Event>)
    ensures FinalizedHavePayslips(After(EMPTY_LEDGER, events))
  {
    if events != [] {
      FinalizedAlwaysHavePayslips(events[..|events| - 1]);
      StepKeepsPayslips(After(EMPTY_LEDGER, events[..|events| - 1]), events[|events| - 1]);
    }
  }

  /** The call that takes a period out of the finalized state. */
  predicate Reopens(ev: Event, id: string) {
    ev.ReopenPeriod? && ev.id == id && ev.reason != "" && !ev.statusFails
  }

  ghost predicate SamePeriodRows(a: Ledger, b: Ledger, id: string) {
    && Lookup(a.periods, id) == Lookup(b.periods, id)
    && forall k: RowKey :: k.period == id ==>
         Lookup(a.results, k) == Lookup(b.results, k) && Lookup(a.payslips, k) == Lookup(b.payslips, k)
  }

  lemma RunLeavesOthers(l: Ledger, id: string, employees: seq<EmployeeData>, limit: nat, statusSet: bool, other: string)
    requires other != id || (other in l.periods && l.periods[other].status == Finalized)
    ensures SamePeriodRows(l, Run(l, id, employees, limit, statusSet).0, other)
  {
    if id in l.periods && l.periods[id].status != Finalized {
      var paid := employees[..Through(employees, l.periods[id], limit)];
      forall k: RowKey | k.period == other
        ensures Lookup(PayAll(l.results, id, l.periods[id], paid), k) == Lookup(l.results, k)
      {
        PayAllLeavesOthers(l.results, id, l.periods[id], paid, k);
      }
    }
  }

  lemma FinalizeLeavesOthers(l: Ledger, id: string, commit: Commit, other: string)
    requires other != id || (other in l.periods && l.periods[other].status == Finalized)
    ensures SamePeriodRows(l, FinalizePeriod(l, id, commit).0, other)
  {
  }

  lemma ReopenLeavesOthers(
    l: Ledger, id: string, reason: string, statusFails: bool, resultsKept: bool, payslipsKept: bool, other: string)
    requires other != id
    ensures SamePeriodRows(l, Reopen(l, id, reason, statusFails, resultsKept, payslipsKept).0, other)
  {
  }

  lemma StepKeepsFinalized(l: Ledger, ev: Event, id: string)
    requires id in l.periods && l.periods[id].status == Finalized && !Reopens(ev, id)
    ensures SamePeriodRows(l, Step(l, ev).0, id)
  {
    match ev
    case CreatePeriod(_, _, _) =>
    case RunPayroll(other, employees, limit, statusSet) =>
      RunLeavesOthers(l, other, employees, limit, statusSet, id);
    case FinalizePayroll(other, _, _, _, commit, _) =>
      FinalizeLeavesOthers(l, other, commit, id);
    case ReopenPeriod(other, reason, statusFails, resultsKept, payslipsKept) =>
      if other != id {
        ReopenLeavesOthers(l, other, reason, statusFails, resultsKept, payslipsKept, id);
      }
  }

  /** A finalized period's status, results and payslips stay as they are until it is reopened. */
  lemma {:induction false} FinalizedIsFrozen(l: Ledger, events: seq<Event>, id: string)
    requires id in l.periods && l.periods[id].status == Finalized
    requires forall i :: 0 <= i < |events| ==> !Reopens(events[i], id)
    ensures SamePeriodRows(l, After(l, events), id)
  {
    if events != [] {
      var n := |events| - 1;
      FinalizedIsFrozen(l, events[..n], id);
      assert Lookup(After(l, events[..n]).periods, id) == Some(l.periods[id]);
      StepKeepsFinalized(After(l, events[..n]), events[n], id);
    }
  }

  /** The call gets past its key, and the period can be finalized. */
  predicate Finalizes(l: Ledger, ev: Event)
    requires ev.FinalizePayroll?
  {
    && ev.key != "" && CheckKey(l.keys, KeyId(ev.user, ev.key), ev.id, ev.lookupFails).None?
    && CanFinalize(l, ev.id)
  }

  /** The period is reviewed, and would have a payslip. */
  predicate CanFinalize(l: Ledger, id: string) {
    id in l.periods && l.periods[id].status == Reviewed && HasPayslip(AddPayslips(l.payslips, l.results, id), id)
  }

  predicate KeyOfAnother(l: Ledger, ev: Event)
    requires ev.FinalizePayroll?
  {
    KeyId(ev.user, ev.key) in l.keys && l.keys[KeyId(ev.user, ev.key)].hash != ev.id
  }

  /** A finalize call that does not answer success has finalized all the same exactly if its commit
      was lost, or if its failed lookup hid that the key belongs to another period; otherwise it has
      changed nothing. */
  lemma FailedFinalizeChangesNothing(l: Ledger, ev: Event)
    requires ev.FinalizePayroll? && !Step(l, ev).1.FinalizeDone?
    ensures Step(l, ev).0 == l
      <==> !(Finalizes(l, ev) && (ev.commit == CommitLost || (ev.commit == Committed && KeyOfAnother(l, ev))))
  {
  }

  // ---- Exactly one payslip per result ----------------------------------------------------------

  /** Finalizing leaves one payslip per result exactly when a reopen left none behind: the insert's
      ON CONFLICT DO NOTHING has no unique key to act on. */
  lemma OnePayslipIffNoneLeft(l: Ledger, id: string)
    requires FinalizePeriod(l, id, Committed).1.FinalizeDone?
    ensures var after := FinalizePeriod(l, id, Committed).0;
      (forall k: RowKey :: k.period == id ==> PayslipCount(after.payslips, k) == if k in after.results then 1 else 0)
      <==> !HasPayslip(l.payslips, id)
  {
  }

  predicate Frozen(l: Ledger, id: string) {
    id in l.periods && l.periods[id].status == Finalized
  }

  /** The row's payslip count is what its period's state calls for, and no row is counted zero times. */
  ghost predicate Matches(l: Ledger, k: RowKey) {
    && PayslipCount(l.payslips, k) == (if k in l.results && Frozen(l, k.period) then 1 else 0)
    && (k in l.payslips ==> l.payslips[k] > 0)
    && (k in l.results ==> k.period in l.periods)
  }

  /** A reopen that goes through while its payslip delete fails. */
  predicate LeavesPayslips(l: Ledger, ev: Event) {
    ev.ReopenPeriod? && ev.payslipsKept && Step(l, ev).1.ReopenDone?
  }

  lemma RunMatches(l: Ledger, id: string, employees: seq<EmployeeData>, limit: nat, statusSet: bool, k: RowKey)
    requires Matches(l, k)
    ensures Matches(Run(l, id, employees, limit, statusSet).0, k)
  {
    if k.period != id {
      RunLeavesOthers(l, id, employees, limit, statusSet, k.period);
      assert Lookup(Run(l, id, employees, limit, statusSet).0.results, k) == Lookup(l.results, k);
    }
  }

  lemma FinalizeMatches(l: Ledger, id: string, commit: Commit, k: RowKey)
    requires Matches(l, k)
    ensures Matches(FinalizePeriod(l, id, commit).0, k)
  {
  }

  lemma ReopenMatches(l: Ledger, id: string, reason: string, statusFails: bool, resultsKept: bool, k: RowKey)
    requires Matches(l, k)
    ensures Matches(Reopen(l, id, reason, statusFails, resultsKept, false).0, k)
  {
  }

  lemma StepMatches(l: Ledger, ev: Event, k: RowKey)
    requires Matches(l, k) && !LeavesPayslips(l, ev)
    ensures Matches(Step(l, ev).0, k)
  {
    match ev
    case CreatePeriod(_, _, _) =>
    case RunPayroll(id, employees, limit, statusSet) => RunMatches(l, id, employees, limit, statusSet, k);
    case FinalizePayroll(id, _, _, _, commit, _) => FinalizeMatches(l, id, commit, k);
    case ReopenPeriod(id, reason, statusFails, resultsKept, payslipsKept) =>
      if !payslipsKept {
        ReopenMatches(l, id, reason, statusFails, resultsKept, k);
      }
  }

  ghost predicate AllMatch(l: Ledger) {
    forall k :: Matches(l, k)
  }

  lemma StepMatchesIff(l: Ledger, ev: Event)
    requires AllMatch(l) && FinalizedHavePayslips(l)
    ensures AllMatch(Step(l, ev).0) <==> !LeavesPayslips(l, ev)
  {
    if LeavesPayslips(l, ev) {
      var k :| k in l.payslips && k.period == ev.id && l.payslips[k] > 0;
      assert !Matches(Step(l, ev).0, k);
    } else {
      forall k
        ensures Matches(Step(l, ev).0, k)
      {
        StepMatches(l, ev, k);
      }
    }
  }

  ghost predicate MatchThroughout(events: seq<Event>) {
    AllMatch(After(EMPTY_LEDGER, events)) && (events != [] ==> MatchThroughout(events[..|events| - 1]))
  }

  ghost predicate NoneLeft(events: seq<Event>) {
    events != [] ==>
      NoneLeft(events[..|events| - 1])
      && !LeavesPayslips(After(EMPTY_LEDGER, events[..|events| - 1]), events[|events| - 1])
  }

  /** Along any history, wherever it fails, there is at all times exactly one payslip for each result of
      a finalized period and no other payslip, if and only if no reopen goes through while its payslip
      delete fails. */
  lemma {:induction false} PayslipsMatchIff(events: seq<Event>)
    ensures MatchThroughout(events) <==> NoneLeft(events)
  {
    if events != [] {
      var n := |events| - 1;
      PayslipsMatchIff(events[..n]);
      if MatchThroughout(events[..n]) {
        FinalizedAlwaysHavePayslips(events[..n]);
        assert AllMatch(After(EMPTY_LEDGER, events[..n]));
        StepMatchesIff(After(EMPTY_LEDGER, events[..n]), events[n]);
      }
    }
  }
}
