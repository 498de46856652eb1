/** What a payroll call does, said in amounts, dates and answers: an employee's gross and deductions,
    the cost of unpaid leave, whom a run pays, and what each handler answers. */
module PayrollLaws {
  import opened Options
  import opened Sums
  import opened LeaveDays
  import opened Payroll
  import opened PayrollPeriods
  import opened PayrollRuns
  import opened PayrollHistories

  // ---- Sums ------------------------------------------------------------------------------------

  /** Each line counts for its own kind, by its amount. */
  lemma SumOfOneMore(kind: ElementType, lines: seq<InputLine>, line: InputLine)
    ensures SumOf(kind, []) == 0.0
    ensures SumOf(kind, lines + [line]) - SumOf(kind, lines) == if line.kind == kind then line.amount else 0.0
  {
    assert (lines + [line])[..|lines|] == lines;
  }

  /** Each leave counts for the half days it shares with the period, overlaps with others included. */
  lemma TotalUnpaidOneMore(ws: seq<LeaveWindow>, w: LeaveWindow, p: PayPeriod)
    ensures TotalUnpaid([], p) == 0.0
    ensures 2.0 * (TotalUnpaid(ws + [w], p) - TotalUnpaid(ws, p)) == |LeaveSlots(w) * PeriodSlots(p)| as real
  {
    assert (ws + [w])[..|ws|] == ws;
    UnpaidDaysCountSlots(w, p);
  }

  ghost predicate SharedDay(w: LeaveWindow, p: PayPeriod, d: int) {
    w.start <= d <= w.end && p.start <= d <= p.end
  }

  /** The leave query keeps exactly the leaves that share a day with the period. */
  lemma OverlapsIff(w: LeaveWindow, p: PayPeriod)
    requires w.start <= w.end && p.start <= p.end
    ensures Overlaps(w, p) <==> exists d :: SharedDay(w, p, d)
  {
    assert Overlaps(w, p) ==> SharedDay(w, p, if w.start <= p.start then p.start else w.start);
  }

  // ---- One employee's pay ----------------------------------------------------------------------

  ghost function Gains(amounts: seq<real>): real {
    if amounts == [] then 0.0
    else
      var last := amounts[|amounts| - 1];
      Gains(amounts[..|amounts| - 1]) + if last > 0.0 then last else 0.0
  }

  lemma {:induction false} AdjustmentsGain(amounts: seq<real>)
    ensures SumOf(Earning, AdjustmentLines(amounts)) == Gains(amounts)
    ensures SumOf(Deduction, AdjustmentLines(amounts)) == Gains(amounts) - Total(amounts)
  {
    if amounts != [] {
      var n := |amounts| - 1;
      AdjustmentsGain(amounts[..n]);
      assert AdjustmentLines(amounts)[..n] == AdjustmentLines(amounts[..n]);
    }
  }

  lemma QuotientTimes(salary: real, days: real, unpaid: real)
    requires days > 0.0
    ensures ((salary / days) * unpaid) * days == salary * unpaid
  {
    var rate := salary / days;
    assert rate * days == salary;
    assert (rate * unpaid) * days == (rate * days) * unpaid;
  }

  /** A cost is to the salary as the unpaid days are to the days of the period; no salary or no period,
      no cost. */
  predicate IsShare(cost: real, salary: real, unpaid: real, p: PayPeriod) {
    && (p.start <= p.end ==>
          cost * ((p.end - p.start) as real + 1.0) == if salary > 0.0 then salary * unpaid else 0.0)
    && (p.end < p.start ==> cost == 0.0)
  }

  lemma DeductionIsShare(salary: real, unpaid: real, p: PayPeriod)
    requires unpaid >= 0.0
    ensures IsShare(LeaveDeduction(salary, unpaid, p), salary, unpaid, p)
  {
    if p.start <= p.end {
      QuotientTimes(salary, (p.end - p.start) as real + 1.0, unpaid);
    }
  }

  /** An employee's pay, line by line: gross is the salary, if known, the earnings and the gains among
      the adjustments; deductions are the deduction lines, the losses among the adjustments, and the
      salary's share of the unpaid days in the period. */
  lemma PayInFull(e: EmployeeData, p: PayPeriod) returns (leaveCost: real)
    requires e.inputs.Some?
    ensures var salary := match e.salary case None => 0.0 case Some(s) => s;
      var leaves := match e.unpaidLeaves case None => [] case Some(ws) => ws;
      PayOf(e, p).gross == salary + SumOf(Earning, e.inputs.value) + Gains(AdjustmentsOf(e))
      && IsShare(leaveCost, salary, TotalUnpaid(leaves, p), p)
    ensures PayOf(e, p).deductions
      == SumOf(Deduction, e.inputs.value) + (Gains(AdjustmentsOf(e)) - Total(AdjustmentsOf(e))) + leaveCost
    ensures PayOf(e, p).net == PayOf(e, p).gross - PayOf(e, p).deductions
  {
    PayParts(e, p);
    leaveCost := LeaveDeduction(SalaryOf(e), TotalUnpaid(OrEmpty(e.unpaidLeaves), p), p);
    LeaveCostIsShare(e, p);
  }

  lemma LeaveCostIsShare(e: EmployeeData, p: PayPeriod)
    ensures var salary := match e.salary case None => 0.0 case Some(s) => s;
      var leaves := match e.unpaidLeaves case None => [] case Some(ws) => ws;
      IsShare(LeaveDeduction(SalaryOf(e), TotalUnpaid(OrEmpty(e.unpaidLeaves), p), p),
              salary, TotalUnpaid(leaves, p), p)
  {
    TotalNotNegative(OrEmpty(e.unpaidLeaves), p);
    DeductionIsShare(SalaryOf(e), TotalUnpaid(OrEmpty(e.unpaidLeaves), p), p);
  }

  function AdjustmentsOf(e: EmployeeData): seq<real> {
    match e.adjustments
    case None => []
    case Some(amounts) => amounts
  }

  lemma PayParts(e: EmployeeData, p: PayPeriod)
    requires e.inputs.Some?
    ensures var a := PayOf(e, p);
      && a.gross == SalaryOf(e) + SumOf(Earning, e.inputs.value) + Gains(AdjustmentsOf(e))
      && a.deductions == SumOf(Deduction, e.inputs.value) + Gains(AdjustmentsOf(e)) - Total(AdjustmentsOf(e))
                         + LeaveDeduction(SalaryOf(e), TotalUnpaid(OrEmpty(e.unpaidLeaves), p), p)
      && a.net == a.gross - a.deductions
  {
    var adjusted := AdjustmentLines(OrEmpty(e.adjustments));
    var unpaid := TotalUnpaid(OrEmpty(e.unpaidLeaves), p);
    var leave := LeaveLines(LeaveDeduction(SalaryOf(e), unpaid, p));
    AdjustmentsGain(OrEmpty(e.adjustments));
    LeaveLinesSum(SalaryOf(e), unpaid, p);
    SumOfConcat(Earning, e.inputs.value + adjusted, leave);
    SumOfConcat(Deduction, e.inputs.value + adjusted, leave);
    SumOfConcat(Earning, e.inputs.value, adjusted);
    SumOfConcat(Deduction, e.inputs.value, adjusted);
  }

  lemma {:induction false} TotalNotNegative(ws: seq<LeaveWindow>, p: PayPeriod)
    ensures TotalUnpaid(ws, p) >= 0.0
  {
    if ws != [] {
      TotalNotNegative(ws[..|ws| - 1], p);
    }
  }

  /** `part` is to `whole` as `share` is to `total`. */
  predicate SameRatio(part: real, whole: real, share: real, total: real) {
    part * total == whole * share
  }

  /** What somebody is paid without their leaves, and with them. */
  ghost predicate PaidWithout(e: EmployeeData, p: PayPeriod, a: Amounts)
    requires e.inputs.Some?
  {
    a == PayOf(e.(unpaidLeaves := None), p)
  }

  ghost predicate PaidWith(e: EmployeeData, ws: seq<LeaveWindow>, p: PayPeriod, a: Amounts)
    requires e.inputs.Some?
  {
    a == PayOf(e.(unpaidLeaves := Some(ws)), p)
  }

  /** Leaves that do not overlap cost of the salary what the employee's half days away are of the
      period's, and leave gross alone. */
  lemma LeaveCostsItsShare(e: EmployeeData, ws: seq<LeaveWindow>, p: PayPeriod, bare: Amounts, paid: Amounts)
    returns (away: real, days: real)
    requires e.inputs.Some? && e.salary.Some? && e.salary.value >= 0.0
    requires p.start <= p.end && DisjointIn(ws, p)
    requires PaidWithout(e, p, bare) && PaidWith(e, ws, p, paid)
    ensures paid.gross == bare.gross
    ensures 2.0 * away == |SlotsAway(ws, p)| as real && 2.0 * days == |PeriodSlots(p)| as real
    ensures SameRatio(bare.net - paid.net, e.salary.value, away, days)
  {
    LeavesCost(e, ws, p, bare, paid);
    away, days := SlotCounts(ws, p);
    ShareOfDays(bare.net - paid.net, e.salary.value, away, days, p);
  }

  lemma LeavesCost(e: EmployeeData, ws: seq<LeaveWindow>, p: PayPeriod, bare: Amounts, paid: Amounts)
    requires e.inputs.Some? && e.salary.Some?
    requires PaidWithout(e, p, bare) && PaidWith(e, ws, p, paid)
    ensures paid.gross == bare.gross && IsShare(bare.net - paid.net, e.salary.value, TotalUnpaid(ws, p), p)
  {
    var b := PayWithout(e, p);
    var lost := PayWith(e, ws, p, b);
  }

  lemma PayWithout(e: EmployeeData, p: PayPeriod) returns (bare: Amounts)
    requires e.inputs.Some?
    ensures bare == PayOf(e.(unpaidLeaves := None), p)
    ensures bare.gross == SalaryOf(e) + SumOf(Earning, e.inputs.value) + Gains(AdjustmentsOf(e))
    ensures bare.deductions == SumOf(Deduction, e.inputs.value) + (Gains(AdjustmentsOf(e)) - Total(AdjustmentsOf(e)))
    ensures bare.net == bare.gross - bare.deductions
  {
    bare := PayOf(e.(unpaidLeaves := None), p);
    var none := PayInFull(e.(unpaidLeaves := None), p);
    NoShareOfNothing(none, SalaryOf(e), p);
  }

  lemma PayWith(e: EmployeeData, ws: seq<LeaveWindow>, p: PayPeriod, bare: Amounts) returns (lost: real)
    requires e.inputs.Some? && e.salary.Some?
    requires bare.gross == SalaryOf(e) + SumOf(Earning, e.inputs.value) + Gains(AdjustmentsOf(e))
    requires bare.deductions == SumOf(Deduction, e.inputs.value) + (Gains(AdjustmentsOf(e)) - Total(AdjustmentsOf(e)))
    requires bare.net == bare.gross - bare.deductions
    ensures PayOf(e.(unpaidLeaves := Some(ws)), p).gross == bare.gross
    ensures lost == bare.net - PayOf(e.(unpaidLeaves := Some(ws)), p).net
    ensures IsShare(lost, e.salary.value, TotalUnpaid(ws, p), p)
  {
    lost := PayInFull(e.(unpaidLeaves := Some(ws)), p);
  }

  lemma NoShareOfNothing(cost: real, salary: real, p: PayPeriod)
    requires IsShare(cost, salary, TotalUnpaid([], p), p)
    ensures cost == 0.0
  {
    if p.start <= p.end {
      assert cost * ((p.end - p.start) as real + 1.0) == 0.0;
    }
  }

  lemma SlotCounts(ws: seq<LeaveWindow>, p: PayPeriod) returns (away: real, days: real)
    requires p.start <= p.end && DisjointIn(ws, p)
    ensures 2.0 * away == |SlotsAway(ws, p)| as real && away == TotalUnpaid(ws, p)
    ensures 2.0 * days == |PeriodSlots(p)| as real && days == (p.end - p.start) as real + 1.0
  {
    UnpaidDaysAreTimeAway(ws, p);
    RangeSize(2 * p.start, 2 * p.end + 2);
    away, days := TotalUnpaid(ws, p), (p.end - p.start) as real + 1.0;
  }

  lemma ShareOfDays(cost: real, salary: real, unpaid: real, days: real, p: PayPeriod)
    requires p.start <= p.end && days == (p.end - p.start) as real + 1.0
    requires IsShare(cost, salary, unpaid, p) && salary >= 0.0
    ensures SameRatio(cost, salary, unpaid, days)
  {
    if salary == 0.0 {
      assert salary * unpaid == 0.0;
    }
  }

  // ---- Runs ------------------------------------------------------------------------------------

  /** Of the pay groups' schedules, those of the period's, and employees without one. */
  predicate OfSchedule(e: EmployeeData, schedule: string) {
    e.groupSchedule != "" ==> e.groupSchedule == schedule
  }

  lemma {:induction false} ThroughAllIff(employees: seq<EmployeeData>, period: Period, limit: nat)
    ensures Through(employees, period, limit) == |employees|
      <==> limit >= |employees| && forall e :: e in employees && OfSchedule(e, period.schedule) ==> e.inputs.Some?
    decreases |employees|
  {
    if employees != [] && limit > 0 {
      ThroughAllIff(employees[1..], period, limit - 1);
      assert employees == [employees[0]] + employees[1..];
    }
  }

  /** What a run answers, and the status it leaves: done, and reviewed, exactly if no read, upsert or
      status update failed. */
  lemma RunAnswers(l: Ledger, id: string, employees: seq<EmployeeData>, limit: nat, statusSet: bool)
    ensures var (after, answer) := Step(l, RunPayroll(id, employees, limit, statusSet));
      && (answer == NotFound <==> id !in l.periods)
      && (answer == InvalidState <==> id in l.periods && l.periods[id].status == Finalized)
      && (answer == RunDone <==>
            id in l.periods && l.periods[id].status != Finalized && limit >= |employees| && statusSet
            && forall e :: e in employees && OfSchedule(e, l.periods[id].schedule) ==> e.inputs.Some?)
      && answer in {NotFound, InvalidState, RunDone, ServerError}
      && after.periods == (if answer == RunDone then l.periods[id := l.periods[id].(status := Reviewed)] else l.periods)
      && after.payslips == l.payslips && after.keys == l.keys
  {
    if id in l.periods {
      ThroughAllIff(employees, l.periods[id], limit);
    }
  }

  /** A complete run pays each employee of the period's schedule, or of none, and nobody else. */
  lemma RunPaysItsSchedule(l: Ledger, run: Event, k: RowKey)
    requires run.RunPayroll? && Step(l, run).1.RunDone? && run.id in l.periods && DistinctEmployees(run.employees)
    ensures var period, after := l.periods[run.id], Step(l, run).0;
      (forall e :: e in run.employees && k == RowKey(run.id, e.id) && OfSchedule(e, period.schedule) ==>
         e.inputs.Some? && Lookup(after.results, k) == Some(PayOf(e, period.dates)))
      && ((forall e :: e in run.employees && OfSchedule(e, period.schedule) ==> k != RowKey(run.id, e.id)) ==>
            Lookup(after.results, k) == Lookup(l.results, k))
  {
    var period := l.periods[run.id];
    RunWrites(l, run);
    RunAnswers(l, run.id, run.employees, run.limit, run.statusSet);
    PayAllRow(l.results, map[], run.id, period, run.employees, k);
    forall e | e in run.employees && k == RowKey(run.id, e.id) && OfSchedule(e, period.schedule)
      ensures Lookup(Step(l, run).0.results, k) == Some(PayOf(e, period.dates))
    {
      var i :| 0 <= i < |run.employees| && run.employees[i] == e;
      PaidRow(run.employees, run.id, period, i);
    }
    if PaysSomewhere(run.employees, run.id, period, k) {
      var i :| 0 <= i < |run.employees| && PaysRow(run.employees[i], run.id, period, k);
      assert run.employees[i] in run.employees;
    }
  }

  // ---- Finalize and reopen ---------------------------------------------------------------------

  /** What finalizing answers, if its statements do not fail: there must be a reviewed period, and some
      result or payslip of it. */
  lemma FinalizeAnswers(l: Ledger, id: string, commit: Commit)
    requires commit != RolledBack
    ensures var answer := FinalizePeriod(l, id, commit).1;
      && (answer == NotFound <==> id !in l.periods)
      && (answer == InvalidState <==> id in l.periods && l.periods[id].status in {Draft, Finalized})
      && (answer == NoResults <==>
            id in l.periods && l.periods[id].status == Reviewed
            && forall k: RowKey :: k.period == id ==> k !in l.results && PayslipCount(l.payslips, k) == 0)
      && (answer.FinalizeDone? ==> commit == Committed && answer.body == "finalized")
  {
    var added := AddPayslips(l.payslips, l.results, id);
    forall k: RowKey | k.period == id
      ensures PayslipCount(added, k) > 0 <==> k in l.results || PayslipCount(l.payslips, k) > 0
    {
    }
    if k: RowKey :| k.period == id && (k in l.results || PayslipCount(l.payslips, k) > 0) {
      assert k in added && added[k] > 0;
    }
  }

  /** What a finalize leaves: the status, one payslip more for each of the period's results, nothing else. */
  lemma FinalizeWrites(l: Ledger, id: string, k: RowKey)
    requires FinalizePeriod(l, id, Committed).1.FinalizeDone?
    ensures var after := FinalizePeriod(l, id, Committed).0;
      && after.periods == l.periods[id := l.periods[id].(status := Finalized)]
      && after.results == l.results && after.keys == l.keys
      && PayslipCount(after.payslips, k)
         == PayslipCount(l.payslips, k) + (if k in l.results && k.period == id then 1 else 0)
  {
  }

  /** What reopening answers and leaves: a finalized period goes back to draft, and loses its results and
      payslips, each unless its delete fails. */
  lemma ReopenWrites(l: Ledger, ev: Event, k: RowKey)
    requires ev.ReopenPeriod?
    ensures var (after, answer) := Step(l, ev);
      && (answer == Invalid <==> ev.reason == "")
      && (answer == NotFound <==> ev.reason != "" && ev.id !in l.periods)
      && (answer == InvalidState <==> ev.reason != "" && ev.id in l.periods && l.periods[ev.id].status != Finalized)
      && (answer == ReopenDone <==>
            ev.reason != "" && ev.id in l.periods && l.periods[ev.id].status == Finalized && !ev.statusFails)
      && (if answer != ReopenDone then after == l
          else
            && after.periods == l.periods[ev.id := l.periods[ev.id].(status := Draft)] && after.keys == l.keys
            && Lookup(after.results, k) == (if k.period == ev.id && !ev.resultsKept then None else Lookup(l.results, k))
            && Lookup(after.payslips, k)
               == (if k.period == ev.id && !ev.payslipsKept then None else Lookup(l.payslips, k)))
  {
  }

  /** A new period is a draft, as dated, and no period is created twice. */
  lemma CreateWrites(l: Ledger, id: string, dates: PayPeriod, schedule: string)
    ensures var (after, answer) := Step(l, CreatePeriod(id, dates, schedule));
      if id in l.periods then after == l && answer == ServerError
      else answer == Created && after == l.(periods := l.periods[id := Period(Draft, dates, schedule)])
  {
  }

  /** Without a key nothing is finalized; a call that meets its own key's other hash answers a conflict. */
  lemma FinalizeKeyAnswers(l: Ledger, ev: Event)
    requires ev.FinalizePayroll?
    ensures var answer := Step(l, ev).1;
      && (answer == Invalid <==> ev.key == "")
      && (answer.Replayed? <==>
            ev.key != "" && !ev.lookupFails && KeyId(ev.user, ev.key) in l.keys && !KeyOfAnother(l, ev))
      && (answer == KeyConflict <==>
            ev.key != "" && KeyOfAnother(l, ev)
            && (!ev.lookupFails || (Finalizes(l, ev) && ev.commit == Committed && !ev.saveFails)))
  {
  }

  // ---- Totals ----------------------------------------------------------------------------------

  lemma ColumnsWritten(rows: map<RowKey, Amounts>, k: RowKey, a: Amounts)
    ensures var before := if k in rows then rows[k] else Amounts(0.0, 0.0, 0.0);
      && MapSum(GrossColumn(rows[k := a])) == MapSum(GrossColumn(rows)) - before.gross + a.gross
      && MapSum(DeductionColumn(rows[k := a])) == MapSum(DeductionColumn(rows)) - before.deductions + a.deductions
      && MapSum(NetColumn(rows[k := a])) == MapSum(NetColumn(rows)) - before.net + a.net
  {
    GrossWritten(rows, k, a);
    DeductionsWritten(rows, k, a);
    NetWritten(rows, k, a);
  }

  lemma GrossWritten(rows: map<RowKey, Amounts>, k: RowKey, a: Amounts)
    ensures MapSum(GrossColumn(rows[k := a]))
      == MapSum(GrossColumn(rows)) - (if k in rows then rows[k].gross else 0.0) + a.gross
  {
    assert GrossColumn(rows[k := a]) == GrossColumn(rows)[k := a.gross];
    MapSumUpdate(GrossColumn(rows), k, a.gross);
  }

  lemma DeductionsWritten(rows: map<RowKey, Amounts>, k: RowKey, a: Amounts)
    ensures MapSum(DeductionColumn(rows[k := a]))
      == MapSum(DeductionColumn(rows)) - (if k in rows then rows[k].deductions else 0.0) + a.deductions
  {
    assert DeductionColumn(rows[k := a]) == DeductionColumn(rows)[k := a.deductions];
    MapSumUpdate(DeductionColumn(rows), k, a.deductions);
  }

  lemma NetWritten(rows: map<RowKey, Amounts>, k: RowKey, a: Amounts)
    ensures MapSum(NetColumn(rows[k := a]))
      == MapSum(NetColumn(rows)) - (if k in rows then rows[k].net else 0.0) + a.net
  {
    assert NetColumn(rows[k := a]) == NetColumn(rows)[k := a.net];
    MapSumUpdate(NetColumn(rows), k, a.net);
  }

  lemma RowsWritten(results: map<RowKey, Amounts>, k: RowKey, a: Amounts, id: string)
    ensures Rows(results[k := a], id) == if k.period == id then Rows(results, id)[k := a] else Rows(results, id)
    ensures k.period == id ==> (k in Rows(results, id) <==> k in results)
  {
  }

  /** The journal's totals are sums over the period's results: a result written moves its own period's
      totals by the difference, and no other's. */
  lemma TotalsWritten(results: map<RowKey, Amounts>, k: RowKey, a: Amounts, id: string)
    ensures var before := if k in results then results[k] else Amounts(0.0, 0.0, 0.0);
      var totals, after := PeriodTotals(results, id), PeriodTotals(results[k := a], id);
      if k.period == id
      then after == Amounts(totals.gross - before.gross + a.gross, totals.deductions - before.deductions + a.deductions,
                            totals.net - before.net + a.net)
      else after == totals
  {
    RowsWritten(results, k, a, id);
    ColumnsWritten(Rows(results, id), k, a);
  }

  lemma NoTotals(id: string)
    ensures PeriodTotals(map[], id) == Amounts(0.0, 0.0, 0.0)
  {
    assert Rows(map[], id) == map[];
    assert GrossColumn(map[]) == map[] && DeductionColumn(map[]) == map[] && NetColumn(map[]) == map[];
  }
}
