/** Where the results of a period come from: re-runs that change nothing, and results that stem from
    one complete run or from several. */
module PayrollRuns {
  import opened Options
  import opened LeaveDays
  import opened Payroll
  import opened PayrollPeriods

  // ---- Rows of a run ---------------------------------------------------------------------------

  ghost predicate DistinctEmployees(employees: seq<EmployeeData>) {
    forall i, j :: 0 <= i < j < |employees| ==> employees[i].id != employees[j].id
  }

  predicate PaysRow(e: EmployeeData, id: string, period: Period, k: RowKey) {
    Paid(e, period) && k == RowKey(id, e.id)
  }

  ghost predicate PaysSomewhere(employees: seq<EmployeeData>, id: string, period: Period, k: RowKey) {
    exists i :: 0 <= i < |employees| && PaysRow(employees[i], id, period, k)
  }

  lemma PayOneMoreRow(
    results: map<RowKey, Amounts>, id: string, period: Period, employees: seq<EmployeeData>, m: nat, k: RowKey)
    requires m < |employees|
    ensures Lookup(PayAll(results, id, period, employees[..m + 1]), k)
      == if PaysRow(employees[m], id, period, k) then Some(PayOf(employees[m], period.dates))
         else Lookup(PayAll(results, id, period, employees[..m]), k)
  {
    assert employees[..m + 1][..m] == employees[..m];
  }

  /** A run leaves the pay of each employee it covers, whatever was there before. */
  lemma {:induction false} PayAllHits(
    results: map<RowKey, Amounts>, id: string, period: Period, employees: seq<EmployeeData>, i: nat, m: nat, k: RowKey)
    requires DistinctEmployees(employees) && i < m <= |employees| && PaysRow(employees[i], id, period, k)
    ensures Lookup(PayAll(results, id, period, employees[..m]), k) == Some(PayOf(employees[i], period.dates))
    decreases m
  {
    if i < m - 1 {
      assert !PaysRow(employees[m - 1], id, period, k);
      PayAllHits(results, id, period, employees, i, m - 1, k);
    }
    PayOneMoreRow(results, id, period, employees, m - 1, k);
  }

  /** The rows a run pays do not depend on what was there before, and no other row changes. */
  lemma {:induction false} PayAllRow(
    results: map<RowKey, Amounts>, other: map<RowKey, Amounts>, id: string, period: Period,
    employees: seq<EmployeeData>, k: RowKey)
    ensures if PaysSomewhere(employees, id, period, k)
      then Lookup(PayAll(results, id, period, employees), k) == Lookup(PayAll(other, id, period, employees), k) != None
      else Lookup(PayAll(results, id, period, employees), k) == Lookup(results, k)
  {
    if employees != [] {
      var n := |employees| - 1;
      PayAllRow(results, other, id, period, employees[..n], k);
      assert forall i :: 0 <= i < n ==> employees[..n][i] == employees[i];
    }
  }

  lemma PaysSomewhereInPrefix(employees: seq<EmployeeData>, id: string, period: Period, stop: nat, k: RowKey)
    requires stop <= |employees| && PaysSomewhere(employees[..stop], id, period, k)
    ensures PaysSomewhere(employees, id, period, k)
  {
  }

  /** A run that stopped part-way and is run again to the end, on unchanged data, leaves the results of
      one complete run; so does any further run. */
  lemma RerunChangesNothing(
    results: map<RowKey, Amounts>, id: string, period: Period, employees: seq<EmployeeData>, stop: nat)
    requires stop <= |employees|
    ensures PayAll(PayAll(results, id, period, employees[..stop]), id, period, employees)
      == PayAll(results, id, period, employees)
  {
    var part := PayAll(results, id, period, employees[..stop]);
    var again, once := PayAll(part, id, period, employees), PayAll(results, id, period, employees);
    forall k
      ensures Lookup(again, k) == Lookup(once, k)
    {
      PayAllRow(part, results, id, period, employees, k);
      PayAllRow(results, results, id, period, employees, k);
      PayAllRow(results, results, id, period, employees[..stop], k);
      if PaysSomewhere(employees[..stop], id, period, k) {
        PaysSomewhereInPrefix(employees, id, period, stop, k);
      }
    }
    assert forall k :: k in again ==> Lookup(once, k) == Some(again[k]);
    assert forall k :: k in once ==> Lookup(again, k) == Some(once[k]);
  }

  // ---- Results of one complete run -------------------------------------------------------------

  /** The period's rows are those that one complete run leaves in an empty table. */
  ghost predicate FromOneRun(
    results: map<RowKey, Amounts>, id: string, period: Period, employees: seq<EmployeeData>)
  {
    forall k: RowKey :: k.period == id ==> Lookup(results, k) == Lookup(PayAll(map[], id, period, employees), k)
  }

  /** No row of the period belongs to somebody the run does not pay. */
  ghost predicate NoStrayRows(
    results: map<RowKey, Amounts>, id: string, period: Period, employees: seq<EmployeeData>)
  {
    forall k :: k in results && k.period == id ==> PaysSomewhere(employees, id, period, k)
  }

  /** A run writes only what is there already. */
  ghost predicate WritesNothingNew(
    results: map<RowKey, Amounts>, id: string, period: Period, employees: seq<EmployeeData>)
  {
    forall k :: PaysSomewhere(employees, id, period, k) ==>
      Lookup(PayAll(map[], id, period, employees), k) == Lookup(results, k)
  }

  lemma CompleteRunIff(results: map<RowKey, Amounts>, id: string, period: Period, employees: seq<EmployeeData>)
    ensures FromOneRun(PayAll(results, id, period, employees), id, period, employees)
      <==> NoStrayRows(results, id, period, employees)
  {
    forall k: RowKey | k.period == id
      ensures Lookup(PayAll(results, id, period, employees), k) == Lookup(PayAll(map[], id, period, employees), k)
        <==> (k in results ==> PaysSomewhere(employees, id, period, k))
    {
      PayAllRow(results, map[], id, period, employees, k);
      PayAllRow(map[], map[], id, period, employees, k);
    }
  }

  /** Running again, part-way or to the end and on whatever data, leaves the results those of the first
      run if and only if it writes nothing new. */
  lemma RerunKeepsIff(
    results: map<RowKey, Amounts>, id: string, period: Period, employees: seq<EmployeeData>, rerun: seq<EmployeeData>)
    requires FromOneRun(results, id, period, employees)
    ensures FromOneRun(PayAll(results, id, period, rerun), id, period, employees)
      <==> WritesNothingNew(results, id, period, rerun)
  {
    forall k: RowKey | k.period == id
      ensures Lookup(PayAll(results, id, period, rerun), k) == Lookup(results, k)
        <==> (PaysSomewhere(rerun, id, period, k) ==> Lookup(PayAll(map[], id, period, rerun), k) == Lookup(results, k))
    {
      PayAllRow(results, map[], id, period, rerun, k);
    }
  }

  // ---- What re-runs and reopens may do ---------------------------------------------------------

  ghost predicate PaidAlike(first: seq<EmployeeData>, e: EmployeeData, period: Period)
    requires e.inputs.Some?
  {
    exists y :: 0 <= y < |first| && Paid(first[y], period) && first[y].id == e.id
                && PayOf(first[y], period.dates) == PayOf(e, period.dates)
  }

  /** Everybody the second run pays has the same pay in the first. */
  ghost predicate SamePay(first: seq<EmployeeData>, second: seq<EmployeeData>, period: Period) {
    forall x :: 0 <= x < |second| && Paid(second[x], period) ==> PaidAlike(first, second[x], period)
  }

  lemma PaidRow(employees: seq<EmployeeData>, id: string, period: Period, i: nat)
    requires DistinctEmployees(employees) && i < |employees| && Paid(employees[i], period)
    ensures Lookup(PayAll(map[], id, period, employees), RowKey(id, employees[i].id))
      == Some(PayOf(employees[i], period.dates))
    ensures PaysSomewhere(employees, id, period, RowKey(id, employees[i].id))
  {
    PayAllHits(map[], id, period, employees, i, |employees|, RowKey(id, employees[i].id));
    assert employees[..|employees|] == employees;
  }

  /** A row of a run in an empty table is the pay of the employee it belongs to. */
  lemma RowPaysAlike(first: seq<EmployeeData>, id: string, period: Period, e: EmployeeData)
    requires DistinctEmployees(first) && Paid(e, period)
    ensures Lookup(PayAll(map[], id, period, first), RowKey(id, e.id)) == Some(PayOf(e, period.dates))
      <==> PaidAlike(first, e, period)
  {
    var k := RowKey(id, e.id);
    PayAllRow(map[], map[], id, period, first, k);
    if PaysSomewhere(first, id, period, k) {
      var y :| 0 <= y < |first| && PaysRow(first[y], id, period, k);
      PaidRow(first, id, period, y);
    }
  }

  lemma WritesNothingNewIff(
    results: map<RowKey, Amounts>, id: string, period: Period, first: seq<EmployeeData>, second: seq<EmployeeData>)
    requires FromOneRun(results, id, period, first) && DistinctEmployees(first) && DistinctEmployees(second)
    ensures WritesNothingNew(results, id, period, second) <==> SamePay(first, second, period)
  {
    forall x | 0 <= x < |second| && Paid(second[x], period)
      ensures PaysSomewhere(second, id, period, RowKey(id, second[x].id))
      ensures Lookup(PayAll(map[], id, period, second), RowKey(id, second[x].id))
          == Lookup(results, RowKey(id, second[x].id))
        <==> PaidAlike(first, second[x], period)
    {
      PaidRow(second, id, period, x);
      RowPaysAlike(first, id, period, second[x]);
    }
  }

  /** A run of the period that gets past its checks, or a reopen that does. */
  predicate TouchesRows(l: Ledger, ev: Event, id: string) {
    ev.id == id && match ev
                   case RunPayroll(_, _, _, _) => Step(l, ev).1.RunDone? || Step(l, ev).1.ServerError?
                   case ReopenPeriod(_, _, _, _, _) => Step(l, ev).1.ReopenDone?
                   case _ => false
  }

  /** The calls that leave the results those of the period's first run: a re-run, cut off or not, that
      pays whom it comes to the same, a reopen that deletes no result, and all that touch no row. */
  ghost predicate KeepsResults(l: Ledger, ev: Event, id: string, period: Period, first: seq<EmployeeData>) {
    TouchesRows(l, ev, id) ==>
      match ev
      case RunPayroll(_, employees, limit, _) =>
        id in l.periods && SamePay(first, employees[..Through(employees, l.periods[id], limit)], period)
      case ReopenPeriod(_, _, _, resultsKept, _) => resultsKept || PaysNobody(first, period)
      case _ => true
  }

  predicate PaysNobody(employees: seq<EmployeeData>, period: Period) {
    forall i :: 0 <= i < |employees| ==> !Paid(employees[i], period)
  }

  lemma UntouchedRow(l: Ledger, ev: Event, k: RowKey)
    requires !TouchesRows(l, ev, k.period)
    ensures Lookup(Step(l, ev).0.results, k) == Lookup(l.results, k)
  {
    match ev
    case RunPayroll(id, employees, limit, statusSet) =>
      if id != k.period {
        RunLeavesOthers(l, id, employees, limit, statusSet, k.period);
      }
    case ReopenPeriod(_, _, _, _, _) =>
    case CreatePeriod(_, _, _) =>
    case FinalizePayroll(_, _, _, _, _, _) =>
  }

  lemma UntouchedKeeps(l: Ledger, ev: Event, id: string, period: Period, first: seq<EmployeeData>)
    requires FromOneRun(l.results, id, period, first) && !TouchesRows(l, ev, id)
    ensures FromOneRun(Step(l, ev).0.results, id, period, first)
  {
    forall k: RowKey | k.period == id
      ensures Lookup(Step(l, ev).0.results, k) == Lookup(l.results, k)
    {
      UntouchedRow(l, ev, k);
    }
  }

  /** A period's status does not matter to what a run pays. */
  lemma {:induction false} SameDates(
    results: map<RowKey, Amounts>, id: string, p: Period, q: Period, employees: seq<EmployeeData>)
    requires p.dates == q.dates && p.schedule == q.schedule
    ensures PayAll(results, id, p, employees) == PayAll(results, id, q, employees)
  {
    if employees != [] {
      SameDates(results, id, p, q, employees[..|employees| - 1]);
    }
  }

  /** The period as it is dated, whatever its status. */
  predicate Dated(l: Ledger, id: string, period: Period) {
    id in l.periods && l.periods[id] == period.(status := l.periods[id].status)
  }

  lemma StaysDated(l: Ledger, ev: Event, id: string, period: Period)
    requires Dated(l, id, period)
    ensures Dated(Step(l, ev).0, id, period)
  {
  }

  ghost predicate Distinct(ev: Event) {
    ev.RunPayroll? ==> DistinctEmployees(ev.employees)
  }

  lemma RerunStepIff(l: Ledger, ev: Event, id: string, period: Period, first: seq<EmployeeData>)
    requires ev.RunPayroll? && TouchesRows(l, ev, id) && Dated(l, id, period)
    requires FromOneRun(l.results, id, period, first) && DistinctEmployees(first) && Distinct(ev)
    ensures FromOneRun(Step(l, ev).0.results, id, period, first) <==> KeepsResults(l, ev, id, period, first)
  {
    var paid := ev.employees[..Through(ev.employees, l.periods[id], ev.limit)];
    SameDates(l.results, id, period, l.periods[id], paid);
    RerunKeepsIff(l.results, id, period, first, paid);
    WritesNothingNewIff(l.results, id, period, first, paid);
  }

  lemma ReopenStepIff(l: Ledger, ev: Event, id: string, period: Period, first: seq<EmployeeData>)
    requires ev.ReopenPeriod? && TouchesRows(l, ev, id)
    requires FromOneRun(l.results, id, period, first) && DistinctEmployees(first)
    ensures FromOneRun(Step(l, ev).0.results, id, period, first) <==> KeepsResults(l, ev, id, period, first)
  {
    if !ev.resultsKept {
      if i :| 0 <= i < |first| && Paid(first[i], period) {
        PaidRow(first, id, period, i);
        assert RowKey(id, first[i].id) !in Step(l, ev).0.results;
      } else {
        forall k: RowKey | k.period == id
          ensures Lookup(PayAll(map[], id, period, first), k) == None
        {
          PayAllRow(map[], map[], id, period, first, k);
        }
      }
    }
  }

  lemma ResultsStepIff(l: Ledger, ev: Event, id: string, period: Period, first: seq<EmployeeData>)
    requires Dated(l, id, period) && Distinct(ev)
    requires FromOneRun(l.results, id, period, first) && DistinctEmployees(first)
    ensures FromOneRun(Step(l, ev).0.results, id, period, first) <==> KeepsResults(l, ev, id, period, first)
  {
    if !TouchesRows(l, ev, id) {
      UntouchedKeeps(l, ev, id, period, first);
    } else if ev.RunPayroll? {
      RerunStepIff(l, ev, id, period, first);
    } else {
      ReopenStepIff(l, ev, id, period, first);
    }
  }

  // ---- Whole histories -------------------------------------------------------------------------

  ghost predicate FromRunThroughout(
    l: Ledger, events: seq<Event>, id: string, period: Period, first: seq<EmployeeData>)
  {
    && FromOneRun(After(l, events).results, id, period, first)
    && (events != [] ==> FromRunThroughout(l, events[..|events| - 1], id, period, first))
  }

  ghost predicate KeptThroughout(
    l: Ledger, events: seq<Event>, id: string, period: Period, first: seq<EmployeeData>)
  {
    events != [] ==>
      KeptThroughout(l, events[..|events| - 1], id, period, first)
      && KeepsResults(After(l, events[..|events| - 1]), events[|events| - 1], id, period, first)
  }

  lemma {:induction false} AlwaysDated(l: Ledger, events: seq<Event>, id: string, period: Period)
    requires Dated(l, id, period)
    ensures Dated(After(l, events), id, period)
  {
    if events != [] {
      AlwaysDated(l, events[..|events| - 1], id, period);
      StaysDated(After(l, events[..|events| - 1]), events[|events| - 1], id, period);
    }
  }

  lemma {:induction false} KeptThroughoutIff(
    l: Ledger, events: seq<Event>, id: string, period: Period, first: seq<EmployeeData>)
    requires Dated(l, id, period) && DistinctEmployees(first)
    requires forall i :: 0 <= i < |events| ==> Distinct(events[i])
    ensures FromRunThroughout(l, events, id, period, first)
      <==> FromOneRun(l.results, id, period, first) && KeptThroughout(l, events, id, period, first)
  {
    if events != [] {
      var n := |events| - 1;
      KeptThroughoutIff(l, events[..n], id, period, first);
      AlwaysDated(l, events[..n], id, period);
      if FromRunThroughout(l, events[..n], id, period, first) {
        ResultsStepIff(After(l, events[..n]), events[n], id, period, first);
      }
    }
  }

  lemma RunWrites(l: Ledger, ev: Event)
    requires ev.RunPayroll? && Step(l, ev).1.RunDone?
    ensures ev.id in l.periods && Dated(Step(l, ev).0, ev.id, l.periods[ev.id])
    ensures Step(l, ev).0.results == PayAll(l.results, ev.id, l.periods[ev.id], ev.employees)
  {
    assert ev.employees[..|ev.employees|] == ev.employees;
  }

  /** From a complete run on, through any later calls and failures, a period's results are at all times
      exactly those of that run if and only if it found no row of somebody it does not pay, each later
      re-run paid whom it came to the same, cut off or not, and no reopen deleted anything. */
  lemma ResultsFromOneRunIff(l: Ledger, run: Event, events: seq<Event>)
    requires run.RunPayroll? && Step(l, run).1.RunDone? && run.id in l.periods && Distinct(run)
    requires forall i :: 0 <= i < |events| ==> Distinct(events[i])
    ensures var id, period := run.id, l.periods[run.id];
      FromRunThroughout(Step(l, run).0, events, id, period, run.employees)
      <==> NoStrayRows(l.results, id, period, run.employees)
           && KeptThroughout(Step(l, run).0, events, id, period, run.employees)
  {
    RunWrites(l, run);
    CompleteRunIff(l.results, run.id, l.periods[run.id], run.employees);
    KeptThroughoutIff(Step(l, run).0, events, run.id, l.periods[run.id], run.employees);
  }

  // ---- Histories that fall short ---------------------------------------------------------------

  lemma Then(l: Ledger, events: seq<Event>, ev: Event) returns (more: seq<Event>)
    requires After(EMPTY_LEDGER, events) == l
    ensures more == events + [ev] && After(EMPTY_LEDGER, more) == Step(l, ev).0
  {
    more := events + [ev];
    assert more[..|events|] == events;
  }

  predicate Succeeds(events: seq<Event>, i: nat, user: string, key: string) {
    i < |events| && events[i].FinalizePayroll? && events[i].user == user && events[i].key == key
    && ResponseAt(EMPTY_LEDGER, events, i).FinalizeDone?
  }

  lemma SucceedsStill(events: seq<Event>, more: seq<Event>, i: nat, user: string, key: string)
    requires Succeeds(events, i, user, key) && |events| <= |more| && more[..|events|] == events
    ensures Succeeds(more, i, user, key)
  {
    assert more[..i] == events[..i] && more[i] == events[i];
  }

  /** A period that one employee's pay is run for to the end, and then finalized. */
  lemma RunAndFinalize(
    l: Ledger, events: seq<Event>, id: string, e: EmployeeData, user: string, key: string,
    lookupFails: bool, saveFails: bool)
    returns (more: seq<Event>, after: Ledger)
    requires After(EMPTY_LEDGER, events) == l && id in l.periods && l.periods[id].status != Finalized
    requires Paid(e, l.periods[id]) && key != ""
    requires KeyId(user, key) !in l.keys || (lookupFails && l.keys[KeyId(user, key)].hash == id)
    ensures |more| == |events| + 2 && more[..|events|] == events && Succeeds(more, |events| + 1, user, key)
    ensures more[|events| + 1] == FinalizePayroll(id, user, key, lookupFails, Committed, saveFails)
    ensures After(EMPTY_LEDGER, more) == after && Frozen(after, id) && Paid(e, after.periods[id])
    ensures after.keys == if saveFails then l.keys else l.keys[KeyId(user, key) := KeyEntry(id, FINALIZED_BODY)]
    ensures PayslipCount(after.payslips, RowKey(id, e.id)) == PayslipCount(l.payslips, RowKey(id, e.id)) + 1
  {
    var run := RunPayroll(id, [e], 1, true);
    var finalize := FinalizePayroll(id, user, key, lookupFails, Committed, saveFails);
    var first := Then(l, events, run);
    RunOfOne(l, id, e);
    var reviewed := Step(l, run).0;
    more := Then(reviewed, first, finalize);
    assert more[..|events| + 1] == first;
    FinalizesRow(reviewed, id, RowKey(id, e.id));
    after := Step(reviewed, finalize).0;
  }

  lemma FinalizesRow(l: Ledger, id: string, k: RowKey)
    requires id in l.periods && l.periods[id].status == Reviewed && k.period == id && k in l.results
    ensures FinalizePeriod(l, id, Committed).1 == FinalizeDone(FINALIZED_BODY)
    ensures var after := FinalizePeriod(l, id, Committed).0;
      after.results == l.results && after.keys == l.keys
      && after.periods == l.periods[id := l.periods[id].(status := Finalized)]
      && PayslipCount(after.payslips, k) == PayslipCount(l.payslips, k) + 1
  {
  }

  lemma RunOfOne(l: Ledger, id: string, e: EmployeeData)
    requires id in l.periods && l.periods[id].status != Finalized && Paid(e, l.periods[id])
    ensures Step(l, RunPayroll(id, [e], 1, true)).0
      == l.(periods := l.periods[id := l.periods[id].(status := Reviewed)],
            results := l.results[RowKey(id, e.id) := PayOf(e, l.periods[id].dates)])
  {
    ThroughIs([e], l.periods[id], 1, 1);
    PayAllOne(l.results, id, l.periods[id], [e], 1);
  }

  lemma PayAllOne(results: map<RowKey, Amounts>, id: string, period: Period, employees: seq<EmployeeData>, n: nat)
    requires n == 1 <= |employees| && Paid(employees[0], period)
    ensures PayAll(results, id, period, employees[..n])
      == results[RowKey(id, employees[0].id) := PayOf(employees[0], period.dates)]
  {
  }

  predicate Possible(e: EmployeeData, schedule: string) {
    e.inputs.Some? && e.groupSchedule in {"", schedule}
  }

  lemma Opened(id: string, dates: PayPeriod, schedule: string) returns (events: seq<Event>, l: Ledger)
    ensures After(EMPTY_LEDGER, events) == l
    ensures l == EMPTY_LEDGER.(periods := map[id := Period(Draft, dates, schedule)])
  {
    events := Then(EMPTY_LEDGER, [], CreatePeriod(id, dates, schedule));
    l := Step(EMPTY_LEDGER, CreatePeriod(id, dates, schedule)).0;
  }

  /** A finalized period reopened, its results deleted and its payslips perhaps not. */
  lemma Reopened(l: Ledger, events: seq<Event>, id: string, payslipsKept: bool)
    returns (more: seq<Event>, after: Ledger)
    requires After(EMPTY_LEDGER, events) == l && Frozen(l, id)
    ensures |more| == |events| + 1 && more[..|events|] == events && After(EMPTY_LEDGER, more) == after
    ensures after.keys == l.keys && after.periods == l.periods[id := l.periods[id].(status := Draft)]
    ensures payslipsKept ==> after.payslips == l.payslips
  {
    var reopen := ReopenPeriod(id, "reason", false, false, payslipsKept);
    more := Then(l, events, reopen);
    after := Step(l, reopen).0;
  }

  /** Run, finalize, reopen with the payslip delete failing, run and finalize again: two payslips. */
  lemma DuplicatePayslips(
    id: string, dates: PayPeriod, schedule: string, e: EmployeeData, user: string, k1: string, k2: string)
    returns (events: seq<Event>)
    requires Possible(e, schedule) && k1 != "" && k2 != "" && k1 != k2
    ensures Frozen(After(EMPTY_LEDGER, events), id)
    ensures PayslipCount(After(EMPTY_LEDGER, events).payslips, RowKey(id, e.id)) == 2
  {
    var l;
    events, l := Opened(id, dates, schedule);
    events, l := RunAndFinalize(l, events, id, e, user, k1, false, false);
    events, l := Reopened(l, events, id, true);
    events, l := RunAndFinalize(l, events, id, e, user, k2, false, false);
  }

  /** A key finalizes twice if the first success was not saved, or the later lookup fails, with a reopen
      in between. */
  lemma KeyFinalizesTwice(
    id: string, dates: PayPeriod, schedule: string, e: EmployeeData, user: string, key: string,
    saveFails: bool, lookupFails: bool)
    returns (events: seq<Event>, i: nat, j: nat)
    requires Possible(e, schedule) && key != "" && (saveFails || lookupFails)
    ensures i < j && Succeeds(events, i, user, key) && Succeeds(events, j, user, key)
    ensures events[i].saveFails == saveFails && events[j].lookupFails == lookupFails
  {
    var start, l := Opened(id, dates, schedule);
    var once, done := RunAndFinalize(l, start, id, e, user, key, false, saveFails);
    var reopened, draft := Reopened(done, once, id, false);
    var after;
    events, after := RunAndFinalize(draft, reopened, id, e, user, key, lookupFails, false);
    i, j := |start| + 1, |reopened| + 1;
    assert events[..|once|] == once;
    SucceedsStill(once, events, i, user, key);
  }

  /** A finalize whose commit is lost answers an error, and the period is finalized. */
  lemma FinalizedWithError(
    id: string, dates: PayPeriod, schedule: string, e: EmployeeData, user: string, key: string)
    returns (events: seq<Event>, last: Event)
    requires Possible(e, schedule) && key != ""
    ensures last.FinalizePayroll? && Step(After(EMPTY_LEDGER, events), last).1 == ServerError
    ensures Frozen(Step(After(EMPTY_LEDGER, events), last).0, id)
  {
    var start, l := Opened(id, dates, schedule);
    var run := RunPayroll(id, [e], 1, true);
    RunOfOne(l, id, e);
    events := Then(l, start, run);
    last := FinalizePayroll(id, user, key, false, CommitLost, false);
    assert RowKey(id, e.id) in AddPayslips(map[], Step(l, run).0.results, id);
  }

  /** A complete run for two employees. */
  lemma RunOfTwo(l: Ledger, id: string, a: EmployeeData, b: EmployeeData)
    requires id in l.periods && l.periods[id].status != Finalized
    requires Paid(a, l.periods[id]) && Paid(b, l.periods[id]) && a.id != b.id
    ensures var after := Step(l, RunPayroll(id, [a, b], 2, true)).0;
      after == l.(periods := l.periods[id := l.periods[id].(status := Reviewed)], results := after.results)
      && Lookup(after.results, RowKey(id, b.id)) == Some(PayOf(b, l.periods[id].dates))
  {
    ThroughIs([a, b], l.periods[id], 2, 2);
    assert [a, b][..2] == [a, b];
    PayOneMoreRow(l.results, id, l.periods[id], [a, b], 1, RowKey(id, b.id));
  }

  /** A run that fails after the first employee: the status stays, and that employee's row is written. */
  lemma RunCutOff(l: Ledger, id: string, employees: seq<EmployeeData>)
    requires id in l.periods && l.periods[id].status != Finalized
    requires employees != [] && Paid(employees[0], l.periods[id])
    ensures Step(l, RunPayroll(id, employees, 1, false)).0
      == l.(results := l.results[RowKey(id, employees[0].id) := PayOf(employees[0], l.periods[id].dates)])
  {
    ThroughIs(employees, l.periods[id], 1, 1);
    PayAllOne(l.results, id, l.periods[id], employees, 1);
  }

  /** A complete run, a second run on changed data that stops after one employee, and a finalize that
      succeeds: one employee's finalized pay is of the second run, the other's still of the first. */
  lemma MixedResults(
    id: string, dates: PayPeriod, schedule: string, user: string, key: string,
    a: EmployeeData, b: EmployeeData, newA: EmployeeData, newB: EmployeeData)
    returns (events: seq<Event>)
    requires Possible(a, schedule) && Possible(b, schedule) && Possible(newA, schedule) && Possible(newB, schedule)
    requires a.id == newA.id && b.id == newB.id && a.id != b.id && key != ""
    ensures var l := After(EMPTY_LEDGER, events);
      Frozen(l, id) && Lookup(l.results, RowKey(id, a.id)) == Some(PayOf(newA, dates))
      && Lookup(l.results, RowKey(id, b.id)) == Some(PayOf(b, dates))
  {
    var l;
    events, l := Opened(id, dates, schedule);
    RunOfTwo(l, id, a, b);
    var run := RunPayroll(id, [a, b], 2, true);
    events := Then(l, events, run);
    events := CutOffAndFinalize(Step(l, run).0, events, id, [newA, newB], b.id, user, key);
  }

  lemma CutOffAndFinalize(
    l: Ledger, events: seq<Event>, id: string, employees: seq<EmployeeData>, other: string, user: string, key: string)
    returns (more: seq<Event>)
    requires After(EMPTY_LEDGER, events) == l && l.keys == map[] && key != ""
    requires id in l.periods && l.periods[id].status == Reviewed
    requires employees != [] && Paid(employees[0], l.periods[id]) && other != employees[0].id
    ensures var after := After(EMPTY_LEDGER, more);
      Frozen(after, id)
      && Lookup(after.results, RowKey(id, employees[0].id)) == Some(PayOf(employees[0], l.periods[id].dates))
      && Lookup(after.results, RowKey(id, other)) == Lookup(l.results, RowKey(id, other))
  {
    RunCutOff(l, id, employees);
    var rerun, finalize := RunPayroll(id, employees, 1, false), FinalizePayroll(id, user, key, false, Committed, false);
    var mixed := Step(l, rerun).0;
    more := Then(l, events, rerun);
    FinalizesRow(mixed, id, RowKey(id, employees[0].id));
    more := Then(mixed, more, finalize);
  }
}
