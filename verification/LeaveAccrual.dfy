/** The leave accrual engine: period starts, proration, capped upserts and the per-policy transaction.
    A failed operation rolls its policy's transaction back; a lost commit may or may not have been applied. */
module LeaveAccrual {
  import opened Calendar
  import opened Options
  import opened Sums

  datatype Policy = Policy(
    id: string, leaveType: string, rate: real, period: AccrualPeriod, entitlement: real, carryOver: real)

  datatype Balance = Balance(balance: real, pending: real, used: real)

  datatype BalanceKey = BalanceKey(employee: string, leaveType: string)

  /** leave_balances, and the leave_accrual_runs row of each policy by column. */
  datatype Tables = Tables(
    balances: map<BalanceKey, Balance>,
    lastAccruedOn: map<string, Day>,
    employeesAccrued: map<string, nat>)

  /** Active employees with their start date, if recorded. */
  type Employees = map<string, Option<Day>>

  datatype Credit = Credit(policy: string, periodStart: Day)

  /** An accrual run so far; `credits` lists its committed policy transactions. */
  datatype Progress = Progress(tables: Tables, accrued: nat, credits: seq<Credit>)

  datatype AccrualSummary = AccrualSummary(policiesProcessed: nat, employeesAccrued: nat)

  // ---- Period spans and proration -------------------------------------------------------------

  /** An accrual period: its start, and the start of the next one. */
  datatype AnySpan = Span(start: Day, end: Day)

  type Span = s: AnySpan | s.start < s.end witness Span(0, 1)

  /** The accrual periods that hold the moment a run reads the clock. */
  datatype Clock = Clock(weekly: Span, monthly: Span, yearly: Span)

  function SpanAt(now: Day, period: AccrualPeriod): Span
    requires !period.Unsupported?
  {
    PeriodBrackets(now, period);
    Span(AccrualPeriodStart(now, period), PeriodEnd(AccrualPeriodStart(now, period), period))
  }

  function ClockAt(now: Day): Clock {
    Clock(SpanAt(now, Weekly), SpanAt(now, Monthly), SpanAt(now, Yearly))
  }

  function SpanOf(clock: Clock, period: AccrualPeriod): Span
    requires !period.Unsupported?
  {
    match period
    case Weekly => clock.weekly
    case Monthly => clock.monthly
    case Yearly => clock.yearly
  }

  /** proratedAccrual: the share of the rate for the days left; its clock argument is not used. */
  function ProratedAccrual(rate: real, start: Day, span: Span): real {
    var total, remaining := span.end - span.start, span.end - start;
    if remaining < 0 then 0.0 else rate * (remaining as real / total as real)
  }

  function Accrual(rate: real, start: Option<Day>, span: Span): real {
    if start.Some? && start.value > span.start then ProratedAccrual(rate, start.value, span) else rate
  }

  /** A part of a positive whole, as a fraction. */
  lemma FractionBounds(part: int, whole: int)
    requires 0 <= part && 0 < whole
    ensures var share := part as real / whole as real;
      0.0 <= share && (share < 1.0 <==> part < whole) && (share == 0.0 <==> part == 0)
  {
    var share := part as real / whole as real;
    assert share * whole as real == part as real;
  }

  lemma FractionMonotone(x: int, y: int, whole: int)
    requires x <= y && 0 < whole
    ensures x as real / whole as real <= y as real / whole as real
  {
    var less, more := x as real / whole as real, y as real / whole as real;
    assert less * whole as real == x as real && more * whole as real == y as real;
    assert (more - less) * whole as real >= 0.0;
  }

  lemma ScaleMonotone(rate: real, x: real, y: real)
    requires rate >= 0.0 && x <= y
    ensures rate * x <= rate * y
  {
    assert rate * (y - x) >= 0.0;
  }

  lemma ScaleStrict(rate: real, x: real, y: real)
    requires rate > 0.0 && x < y
    ensures rate * x < rate * y
  {
    assert rate * (y - x) > 0.0;
  }

  /** A late starter earns part of the rate, in proportion to the days left: nothing exactly when
      the start is at or past the period's end, and never the full rate. */
  lemma ProrationBounds(rate: real, start: Day, span: Span)
    requires rate > 0.0 && span.start < start
    ensures var credit := ProratedAccrual(rate, start, span);
      0.0 <= credit < rate && (credit == 0.0 <==> span.end <= start)
  {
    if start <= span.end {
      var share := (span.end - start) as real / (span.end - span.start) as real;
      FractionBounds(span.end - start, span.end - span.start);
      ScaleStrict(rate, share, 1.0);
      if share > 0.0 {
        ScaleStrict(rate, 0.0, share);
      }
    }
  }

  lemma ProrationAntitone(rate: real, early: Day, late: Day, span: Span)
    requires rate >= 0.0 && early <= late
    ensures ProratedAccrual(rate, late, span) <= ProratedAccrual(rate, early, span)
  {
    if early <= span.end {
      var total := span.end - span.start;
      var least := if late <= span.end then span.end - late else 0;
      FractionMonotone(least, span.end - early, total);
      ScaleMonotone(rate, least as real / total as real, (span.end - early) as real / total as real);
    }
  }

  lemma NothingFromNoRate(rate: real, start: Day, span: Span)
    requires rate <= 0.0
    ensures ProratedAccrual(rate, start, span) <= 0.0
  {
    if start <= span.end {
      var share := (span.end - start) as real / (span.end - span.start) as real;
      FractionBounds(span.end - start, span.end - span.start);
      ScaleMonotone(share, rate, 0.0);
    }
  }

  lemma AccrualAtMostRate(rate: real, start: Option<Day>, span: Span)
    ensures Accrual(rate, start, span) <= rate || Accrual(rate, start, span) <= 0.0
  {
    if start.Some? && start.value > span.start {
      if rate > 0.0 {
        ProrationBounds(rate, start.value, span);
      } else {
        NothingFromNoRate(rate, start.value, span);
      }
    }
  }

  // ---- Upserts ---------------------------------------------------------------------------------

  function CapOf(p: Policy): Option<real> {
    if p.entitlement > 0.0 then Some(p.entitlement + p.carryOver) else None
  }

  function Least(x: real, cap: Option<real>): real {
    if cap.Some? && cap.value < x then cap.value else x
  }

  /** The row an accrual upsert leaves: an INSERT takes the accrual as it is, an UPDATE is capped. */
  function CreditRow(row: Option<Balance>, accrual: real, cap: Option<real>): Balance {
    match row
    case None => Balance(accrual, 0.0, 0.0)
    case Some(b) => b.(balance := Least(b.balance + accrual, cap))
  }

  /** UpsertBalanceTx and UpsertBalanceWithCapTx. */
  function Upsert(balances: map<BalanceKey, Balance>, key: BalanceKey, accrual: real, cap: Option<real>)
    : map<BalanceKey, Balance>
  {
    balances[key := CreditRow(Lookup(balances, key), accrual, cap)]
  }

  /** A credit keeps the row within the cap exactly when a row already existed or the accrual itself fits. */
  lemma FirstInsertIsUncapped(row: Option<Balance>, accrual: real, cap: real)
    ensures CreditRow(row, accrual, Some(cap)).balance <= cap <==> row.Some? || accrual <= cap
  {
  }

  function CreditAll(row: Balance, accruals: seq<real>, cap: Option<real>): Balance {
    if accruals == [] then row
    else CreditRow(Some(CreditAll(row, accruals[..|accruals| - 1], cap)), accruals[|accruals| - 1], cap)
  }

  /** Capping every accrual of an existing row equals capping their sum once. */
  lemma {:induction false} CappedFold(row: Balance, accruals: seq<real>, cap: Option<real>)
    requires accruals != []
    requires forall i :: 0 <= i < |accruals| ==> accruals[i] >= 0.0
    ensures CreditAll(row, accruals, cap) == CreditRow(Some(row), Total(accruals), cap)
  {
    var n := |accruals| - 1;
    if n == 0 {
      assert accruals[..0] == [];
    } else {
      CappedFold(row, accruals[..n], cap);
    }
  }

  // ---- One policy ------------------------------------------------------------------------------

  function Accruals(p: Policy, employees: Employees, span: Span): map<string, real> {
    map e | e in employees :: Accrual(p.rate, employees[e], span)
  }

  function Credited(done: set<string>, accruals: map<string, real>): set<string> {
    set e | e in done && e in accruals && accruals[e] > 0.0
  }

  function RowsOf(credited: set<string>, leaveType: string): (rows: set<BalanceKey>)
    ensures forall key :: key in rows <==> key.leaveType == leaveType && key.employee in credited
  {
    set e | e in credited :: BalanceKey(e, leaveType)
  }

  /** The balances after crediting the employees in `done`, whatever the order. */
  function CreditEmployees(
    balances: map<BalanceKey, Balance>, p: Policy, accruals: map<string, real>, done: set<string>)
    : map<BalanceKey, Balance>
  {
    var credited := Credited(done, accruals);
    map key | key in balances.Keys + RowsOf(credited, p.leaveType) ::
      if key in RowsOf(credited, p.leaveType)
      then CreditRow(Lookup(balances, key), accruals[key.employee], CapOf(p))
      else balances[key]
  }

  /** One employee's turn in the loop: nothing to credit, or one upsert. */
  function CreditOne(balances: map<BalanceKey, Balance>, p: Policy, accruals: map<string, real>, e: string)
    : map<BalanceKey, Balance>
    requires e in accruals
  {
    if accruals[e] > 0.0 then Upsert(balances, BalanceKey(e, p.leaveType), accruals[e], CapOf(p)) else balances
  }

  /** The policy has a period start, and no run recorded at or after it. */
  predicate Due(last: map<string, Day>, p: Policy, clock: Clock) {
    && !p.period.Unsupported?
    && SpanOf(clock, p.period).start != ZERO_TIME
    && !(p.id in last && last[p.id] != ZERO_TIME && SpanOf(clock, p.period).start <= last[p.id])
  }

  /** One committed policy transaction, or a skipped policy. */
  function PolicyStep(pr: Progress, p: Policy, employees: Employees, clock: Clock): Progress {
    var t := pr.tables;
    if !Due(t.lastAccruedOn, p, clock) then pr
    else
      var span := SpanOf(clock, p.period);
      var accruals := Accruals(p, employees, span);
      var accrued := pr.accrued + |Credited(employees.Keys, accruals)|;
      Progress(
        Tables(CreditEmployees(t.balances, p, accruals, employees.Keys),
               t.lastAccruedOn[p.id := span.start],
               t.employeesAccrued[p.id := accrued]),
        accrued,
        pr.credits + [Credit(p.id, span.start)])
  }

  /** The policies of a run, in order. */
  function RunPolicies(t: Tables, policies: seq<Policy>, employees: Employees, clock: Clock): Progress {
    if policies == [] then Progress(t, 0, [])
    else
      var n := |policies| - 1;
      PolicyStep(RunPolicies(t, policies[..n], employees, clock), policies[n], employees, clock)
  }

  function SummaryOf(pr: Progress): AccrualSummary {
    AccrualSummary(|pr.credits|, pr.accrued)
  }

  lemma RunOneMore(t: Tables, policies: seq<Policy>, i: nat, employees: Employees, clock: Clock)
    requires i < |policies|
    ensures RunPolicies(t, policies[..i + 1], employees, clock)
      == PolicyStep(RunPolicies(t, policies[..i], employees, clock), policies[i], employees, clock)
  {
    assert policies[..i + 1][..i] == policies[..i];
  }

  /** The upserts of a transaction in the order the employee map happened to be iterated. */
  function CreditInOrder(
    balances: map<BalanceKey, Balance>, p: Policy, accruals: map<string, real>, order: seq<string>)
    : map<BalanceKey, Balance>
    requires forall i :: 0 <= i < |order| ==> order[i] in accruals
  {
    if order == [] then balances
    else
      var n := |order| - 1;
      CreditOne(CreditInOrder(balances, p, accruals, order[..n]), p, accruals, order[n])
  }

  lemma CreditOneMore(
    balances: map<BalanceKey, Balance>, p: Policy, accruals: map<string, real>, done: set<string>, e: string)
    requires e !in done && e in accruals
    ensures CreditEmployees(balances, p, accruals, done + {e})
      == CreditOne(CreditEmployees(balances, p, accruals, done), p, accruals, e)
  {
  }

  /** Map iteration order does not matter: every order of the same employees leaves the same rows. */
  lemma {:induction false} EmployeeOrderIrrelevant(
    balances: map<BalanceKey, Balance>, p: Policy, accruals: map<string, real>, order: seq<string>)
    requires forall i :: 0 <= i < |order| ==> order[i] in accruals
    requires forall i, j :: 0 <= i < j < |order| ==> order[i] != order[j]
    ensures CreditInOrder(balances, p, accruals, order)
      == CreditEmployees(balances, p, accruals, set e | e in order)
  {
    if order == [] {
      assert CreditEmployees(balances, p, accruals, {}).Keys == balances.Keys;
    } else {
      var n := |order| - 1;
      EmployeeOrderIrrelevant(balances, p, accruals, order[..n]);
      var done := set e | e in order[..n];
      assert (set e | e in order) == done + {order[n]};
      CreditOneMore(balances, p, accruals, done, order[n]);
    }
  }

  lemma CreditedOneMore(accruals: map<string, real>, done: set<string>, e: string)
    requires e !in done && e in accruals
    ensures |Credited(done + {e}, accruals)| == |Credited(done, accruals)| + if accruals[e] > 0.0 then 1 else 0
  {
    assert Credited(done + {e}, accruals) == Credited(done, accruals) + if accruals[e] > 0.0 then {e} else {};
  }

  // ---- Runs that fail --------------------------------------------------------------------------

  /** What goes wrong while a run works on one policy: reading its last run, an upsert, another
      statement of its transaction, or the commit, which may have been applied all the same. */
  datatype Fault = ReadFails | UpsertFails(employee: string) | StatementFails | CommitFails(applied: bool)

  datatype Outcome = Done | Stopped(applied: bool)

  /** How a run ended: the policies it went through, and those it committed, one more if the commit it
      stopped at was applied. */
  datatype RunEnd = RunEnd(passed: nat, committed: nat, ok: bool)

  /** A policy without a period start is passed over, and one not due needs no transaction; an upsert
      can only fail for an employee who has something to be credited. */
  function PolicyOutcome(
    last: map<string, Day>, p: Policy, employees: Employees, clock: Clock, fault: Option<Fault>): Outcome
  {
    if p.period.Unsupported? || SpanOf(clock, p.period).start == ZERO_TIME then Done
    else if fault == Some(ReadFails) then Stopped(false)
    else if !Due(last, p, clock) then Done
    else TransactionOutcome(Credited(employees.Keys, Accruals(p, employees, SpanOf(clock, p.period))), fault)
  }

  function TransactionOutcome(credited: set<string>, fault: Option<Fault>): Outcome {
    match fault
    case Some(UpsertFails(e)) => if e in credited then Stopped(false) else Done
    case Some(StatementFails) => Stopped(false)
    case Some(CommitFails(applied)) => Stopped(applied)
    case _ => Done
  }

  /** How far a run gets under the faults of its policies, by index. */
  function EndOf(t: Tables, policies: seq<Policy>, employees: Employees, clock: Clock, faults: map<nat, Fault>)
    : (end: RunEnd)
    ensures end.passed <= end.committed <= |policies| && (end.ok <==> end.passed == |policies|)
  {
    if policies == [] then RunEnd(0, 0, true)
    else
      var n := |policies| - 1;
      var before := EndOf(t, policies[..n], employees, clock, faults);
      if !before.ok then before
      else
        var last := RunPolicies(t, policies[..n], employees, clock).tables.lastAccruedOn;
        match PolicyOutcome(last, policies[n], employees, clock, Lookup(faults, n))
        case Done => RunEnd(n + 1, n + 1, true)
        case Stopped(applied) => RunEnd(n, if applied then n + 1 else n, false)
  }

  /** The summary counts the credits of the policies gone through; beside an error it may also count
      employees of the policy the run stopped at, whose transaction may have been rolled back. */
  ghost predicate SummaryFits(
    summary: AccrualSummary, end: RunEnd, t: Tables, policies: seq<Policy>, employees: Employees, clock: Clock)
    requires end.passed <= |policies| && (end.ok <==> end.passed == |policies|)
  {
    var pr := RunPolicies(t, policies[..end.passed], employees, clock);
    if end.ok then summary == SummaryOf(pr)
    else
      && summary.policiesProcessed == |pr.credits|
      && pr.accrued <= summary.employeesAccrued
      && summary.employeesAccrued <= RunPolicies(t, policies[..end.passed + 1], employees, clock).accrued
  }

  lemma EndOneMore(
    t: Tables, policies: seq<Policy>, i: nat, employees: Employees, clock: Clock, faults: map<nat, Fault>)
    requires i < |policies| && EndOf(t, policies[..i], employees, clock, faults).ok
    ensures var last := RunPolicies(t, policies[..i], employees, clock).tables.lastAccruedOn;
      EndOf(t, policies[..i + 1], employees, clock, faults) ==
        match PolicyOutcome(last, policies[i], employees, clock, Lookup(faults, i))
        case Done => RunEnd(i + 1, i + 1, true)
        case Stopped(applied) => RunEnd(i, if applied then i + 1 else i, false)
  {
    assert policies[..i + 1][..i] == policies[..i];
  }

  /** A run that has stopped goes no further. */
  lemma {:induction false} StoppedForGood(
    t: Tables, policies: seq<Policy>, i: nat, employees: Employees, clock: Clock, faults: map<nat, Fault>)
    requires i <= |policies| && !EndOf(t, policies[..i], employees, clock, faults).ok
    ensures EndOf(t, policies, employees, clock, faults) == EndOf(t, policies[..i], employees, clock, faults)
    decreases |policies|
  {
    if i < |policies| {
      var n := |policies| - 1;
      assert policies[..n][..i] == policies[..i];
      StoppedForGood(t, policies[..n], i, employees, clock, faults);
    } else {
      assert policies[..i] == policies;
    }
  }

  /** The tables and the count after one more employee's turn. */
  lemma TurnTaken(
    balances: map<BalanceKey, Balance>, p: Policy, accruals: map<string, real>, remaining: set<string>, e: string)
    requires e in remaining && remaining <= accruals.Keys
    ensures var before, after := accruals.Keys - remaining, accruals.Keys - (remaining - {e});
      CreditEmployees(balances, p, accruals, after)
        == CreditOne(CreditEmployees(balances, p, accruals, before), p, accruals, e)
      && |Credited(after, accruals)| == |Credited(before, accruals)| + if accruals[e] > 0.0 then 1 else 0
  {
    assert accruals.Keys - (remaining - {e}) == accruals.Keys - remaining + {e};
    CreditOneMore(balances, p, accruals, accruals.Keys - remaining, e);
    CreditedOneMore(accruals, accruals.Keys - remaining, e);
  }

  lemma NoTurnTaken(balances: map<BalanceKey, Balance>, p: Policy, accruals: map<string, real>)
    ensures CreditEmployees(balances, p, accruals, {}) == balances && Credited({}, accruals) == {}
  {
  }

  /** The employee loop of one transaction, over a map whose iteration order is not determined; the
      upsert of the failing employee ends it. */
  method CreditLoop(
    balances: map<BalanceKey, Balance>, p: Policy, accruals: map<string, real>, failing: Option<string>)
    returns (ok: bool, tx: map<BalanceKey, Balance>, credited: nat)
    ensures ok <==> failing.None? || failing.value !in Credited(accruals.Keys, accruals)
    ensures ok ==> tx == CreditEmployees(balances, p, accruals, accruals.Keys)
    ensures ok ==> credited == |Credited(accruals.Keys, accruals)|
    ensures credited <= |Credited(accruals.Keys, accruals)|
  {
    tx, credited := balances, 0;
    var remaining := accruals.Keys;
    NoTurnTaken(balances, p, accruals);
    assert accruals.Keys - remaining == {};
    while remaining != {}
      invariant remaining <= accruals.Keys
      invariant failing.Some? && failing.value in Credited(accruals.Keys, accruals) ==> failing.value in remaining
      invariant tx == CreditEmployees(balances, p, accruals, accruals.Keys - remaining)
      invariant credited == |Credited(accruals.Keys - remaining, accruals)|
      decreases remaining
    {
      var e :| e in remaining;
      if accruals[e] > 0.0 && failing == Some(e) {
        CreditedGrow(accruals, accruals.Keys - remaining);
        return false, tx, credited;
      }
      TurnTaken(balances, p, accruals, remaining, e);
      tx := CreditOne(tx, p, accruals, e);
      credited := credited + if accruals[e] > 0.0 then 1 else 0;
      remaining := remaining - {e};
    }
    assert accruals.Keys - remaining == accruals.Keys;
    ok := true;
  }

  lemma CreditedGrow(accruals: map<string, real>, done: set<string>)
    requires done <= accruals.Keys
    ensures |Credited(done, accruals)| <= |Credited(accruals.Keys, accruals)|
  {
    var all, some := Credited(accruals.Keys, accruals), Credited(done, accruals);
    assert all == some + (all - some);
  }

  class LeaveDatabase {
    var balances: map<BalanceKey, Balance>
    var lastAccruedOn: map<string, Day>
    var employeesAccrued: map<string, nat>

    ghost function State(): Tables
      reads this
    {
      Tables(balances, lastAccruedOn, employeesAccrued)
    }

    /** The list of policies may fail to load, and each policy may meet a fault; a run that stops
        leaves the effect of the policies it committed. */
    method ApplyAccruals(
      policies: seq<Policy>, employees: Employees, now: Day, listFails: bool, faults: map<nat, Fault>)
      returns (ok: bool, summary: AccrualSummary)
      modifies this
      ensures listFails ==> !ok && State() == old(State()) && summary == AccrualSummary(0, 0)
      ensures !listFails ==> var end := EndOf(old(State()), policies, employees, ClockAt(now), faults);
        ok == end.ok
        && State() == RunPolicies(old(State()), policies[..end.committed], employees, ClockAt(now)).tables
        && SummaryFits(summary, end, old(State()), policies, employees, ClockAt(now))
    {
      summary := AccrualSummary(0, 0);
      if listFails {
        return false, summary;
      }
      ok, summary := PolicyLoop(policies, employees, ClockAt(now), faults);
    }

    method PolicyLoop(policies: seq<Policy>, employees: Employees, clock: Clock, faults: map<nat, Fault>)
      returns (ok: bool, summary: AccrualSummary)
      modifies this
      ensures var end := EndOf(old(State()), policies, employees, clock, faults);
        ok == end.ok
        && State() == RunPolicies(old(State()), policies[..end.committed], employees, clock).tables
        && SummaryFits(summary, end, old(State()), policies, employees, clock)
    {
      summary := AccrualSummary(0, 0);
      ghost var pr := Progress(State(), 0, []);
      for i := 0 to |policies|
        invariant pr == RunPolicies(old(State()), policies[..i], employees, clock)
        invariant EndOf(old(State()), policies[..i], employees, clock, faults) == RunEnd(i, i, true)
        invariant State() == pr.tables && summary == SummaryOf(pr)
      {
        RunOneMore(old(State()), policies, i, employees, clock);
        EndOneMore(old(State()), policies, i, employees, clock, faults);
        ok, summary := ProcessPolicy(policies[i], employees, clock, summary, Lookup(faults, i), pr);
        if !ok {
          StoppedForGood(old(State()), policies, i + 1, employees, clock, faults);
          return;
        }
        pr := PolicyStep(pr, policies[i], employees, clock);
      }
      assert policies[..|policies|] == policies;
      ok := true;
    }

    /** One policy: skipped, or credited in a transaction of its own. */
    method ProcessPolicy(
      p: Policy, employees: Employees, clock: Clock, summary: AccrualSummary, fault: Option<Fault>, ghost pr: Progress)
      returns (ok: bool, next: AccrualSummary)
      requires State() == pr.tables && summary == SummaryOf(pr)
      modifies this
      ensures var outcome := PolicyOutcome(pr.tables.lastAccruedOn, p, employees, clock, fault);
        ok == outcome.Done?
        && State() == (if outcome == Stopped(false) then pr.tables else PolicyStep(pr, p, employees, clock).tables)
        && (ok ==> next == SummaryOf(PolicyStep(pr, p, employees, clock)))
        && (!ok ==> next.policiesProcessed == |pr.credits|
                    && pr.accrued <= next.employeesAccrued <= PolicyStep(pr, p, employees, clock).accrued)
    {
      if p.period.Unsupported? || SpanOf(clock, p.period).start == ZERO_TIME {
        return true, summary;
      }
      if fault == Some(ReadFails) {
        return false, summary;
      }
      if !Due(lastAccruedOn, p, clock) {
        return true, summary;
      }
      var span := SpanOf(clock, p.period);
      var accruals := Accruals(p, employees, span);
      assert accruals.Keys == employees.Keys;
      var credited;
      ghost var hit := Credited(accruals.Keys, accruals);
      ok, credited := Transaction(p, accruals, span.start, summary.employeesAccrued, fault, hit);
      next := AccrualSummary(summary.policiesProcessed + (if ok then 1 else 0), summary.employeesAccrued + credited);
    }

    /** Credits, the recorded run and the commit, on copies that only the commit makes visible. */
    method Transaction(
      p: Policy, accruals: map<string, real>, start: Day, accruedBefore: nat, fault: Option<Fault>,
      ghost hit: set<string>)
      returns (ok: bool, credited: nat)
      requires hit == Credited(accruals.Keys, accruals)
      modifies this
      ensures ok == TransactionOutcome(hit, fault).Done?
      ensures TransactionOutcome(hit, fault) == Stopped(false) ==> State() == old(State())
      ensures TransactionOutcome(hit, fault) != Stopped(false) ==>
        balances == CreditEmployees(old(balances), p, accruals, accruals.Keys)
      ensures TransactionOutcome(hit, fault) != Stopped(false) ==>
        lastAccruedOn == old(lastAccruedOn)[p.id := start]
      ensures TransactionOutcome(hit, fault) != Stopped(false) ==>
        employeesAccrued == old(employeesAccrued)[p.id := accruedBefore + |hit|]
      ensures credited <= |hit| && (ok ==> credited == |hit|)
    {
      var failing := match fault case Some(UpsertFails(e)) => Some(e) case _ => None;
      var tx;
      ok, tx, credited := CreditLoop(balances, p, accruals, failing);
      if ok {
        ok := RecordAndCommit(tx, p.id, start, accruedBefore + credited, fault);
      }
    }

    method RecordAndCommit(tx: map<BalanceKey, Balance>, id: string, start: Day, accrued: nat, fault: Option<Fault>)
      returns (ok: bool)
      modifies this
      ensures ok <==> fault !in {Some(StatementFails), Some(CommitFails(false)), Some(CommitFails(true))}
      ensures State() ==
        if fault == Some(StatementFails) || fault == Some(CommitFails(false)) then old(State())
        else Tables(tx, old(lastAccruedOn)[id := start], old(employeesAccrued)[id := accrued])
    {
      if fault == Some(StatementFails) || fault == Some(CommitFails(false)) {
        return false;
      }
      balances, lastAccruedOn, employeesAccrued := tx, lastAccruedOn[id := start], employeesAccrued[id := accrued];
      ok := fault != Some(CommitFails(true));
    }
  }
}
