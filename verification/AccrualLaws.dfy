/** What an accrual run does, said in dates and amounts only: which policies it credits, what each
    employee earns, and what becomes of each balance row. */
module AccrualLaws {
  import opened Calendar
  import opened Options
  import opened LeaveAccrual
  import opened AccrualRuns
  import opened AccrualCounts
  import opened AccrualOrder

  // ---- Which policies are credited -------------------------------------------------------------

  /** The policy has a period, and no date stands that reaches into it. */
  predicate Behind(last: map<string, Day>, p: Policy, now: Day) {
    && p.period != Unsupported && AccrualPeriodStart(now, p.period) != ZERO_TIME
    && (p.id in last && last[p.id] != ZERO_TIME ==> last[p.id] < AccrualPeriodStart(now, p.period))
  }

  lemma {:induction false} ClockReadsPeriod(now: Day, period: AccrualPeriod)
    requires period != Unsupported
    ensures SpanOf(ClockAt(now), period).start == AccrualPeriodStart(now, period)
    ensures SpanOf(ClockAt(now), period).end == PeriodEnd(AccrualPeriodStart(now, period), period)
  {
  }

  lemma {:induction false} DueIffBehind(last: map<string, Day>, p: Policy, now: Day)
    ensures Due(last, p, ClockAt(now)) <==> Behind(last, p, now)
  {
    if p.period != Unsupported {
      ClockReadsPeriod(now, p.period);
    }
  }

  /** The credits of a run, by the dates that stood before it. */
  function CreditsBehind(last: map<string, Day>, policies: seq<Policy>, now: Day): seq<Credit> {
    if policies == [] then []
    else
      var n := |policies| - 1;
      CreditsBehind(last, policies[..n], now)
      + if Behind(last, policies[n], now)
        then [Credit(policies[n].id, AccrualPeriodStart(now, policies[n].period))] else []
  }

  lemma {:induction false} StepCredits(pr: Progress, p: Policy, employees: Employees, now: Day)
    ensures PolicyStep(pr, p, employees, ClockAt(now)).credits == pr.credits
      + if Behind(pr.tables.lastAccruedOn, p, now) then [Credit(p.id, AccrualPeriodStart(now, p.period))] else []
  {
    DueIffBehind(pr.tables.lastAccruedOn, p, now);
    if p.period != Unsupported {
      ClockReadsPeriod(now, p.period);
    }
  }

  /** A run credits exactly the policies that are behind their period, each for the period that holds
      the moment of the run. */
  lemma {:induction false} RunCreditsWhoIsBehind(t: Tables, policies: seq<Policy>, employees: Employees, now: Day)
    requires DistinctIds(policies)
    ensures RunPolicies(t, policies, employees, ClockAt(now)).credits == CreditsBehind(t.lastAccruedOn, policies, now)
  {
    if policies != [] {
      var n := |policies| - 1;
      var pr := RunPolicies(t, policies[..n], employees, ClockAt(now));
      RunCreditsWhoIsBehind(t, policies[..n], employees, now);
      StepCredits(pr, policies[n], employees, now);
      RunKeepsOthers(t, policies, n, employees, ClockAt(now), policies[n].id);
      SameDateSameBehind(pr.tables.lastAccruedOn, t.lastAccruedOn, policies[n], now);
    }
  }

  lemma {:induction false} SameDateSameBehind(a: map<string, Day>, b: map<string, Day>, p: Policy, now: Day)
    requires Lookup(a, p.id) == Lookup(b, p.id)
    ensures Behind(a, p, now) == Behind(b, p, now)
  {
    assert p.id in a <==> p.id in b;
  }

  lemma {:induction false} StepDates(pr: Progress, p: Policy, employees: Employees, now: Day)
    ensures PolicyStep(pr, p, employees, ClockAt(now)).tables.lastAccruedOn
      == if Behind(pr.tables.lastAccruedOn, p, now)
         then pr.tables.lastAccruedOn[p.id := AccrualPeriodStart(now, p.period)] else pr.tables.lastAccruedOn
  {
    DueIffBehind(pr.tables.lastAccruedOn, p, now);
    if p.period != Unsupported {
      ClockReadsPeriod(now, p.period);
    }
  }

  lemma {:induction false} OtherTurnDate(
    t: Tables, policies: seq<Policy>, i: nat, employees: Employees, clock: Clock, id: string)
    requires i < |policies| && policies[i].id != id
    ensures Lookup(RunPolicies(t, policies[..i + 1], employees, clock).tables.lastAccruedOn, id)
      == Lookup(RunPolicies(t, policies[..i], employees, clock).tables.lastAccruedOn, id)
  {
    RunOneMore(t, policies, i, employees, clock);
    StepCount(RunPolicies(t, policies[..i], employees, clock), policies[i], employees, clock, id);
  }

  lemma {:induction false} OtherDatesStay(
    t: Tables, policies: seq<Policy>, i: nat, m: nat, employees: Employees, clock: Clock)
    requires i < m <= |policies| && DistinctIds(policies)
    ensures Lookup(RunPolicies(t, policies[..m], employees, clock).tables.lastAccruedOn, policies[i].id)
      == Lookup(RunPolicies(t, policies[..i + 1], employees, clock).tables.lastAccruedOn, policies[i].id)
    decreases m
  {
    if i + 1 < m {
      OtherDatesStay(t, policies, i, m - 1, employees, clock);
      OtherTurnDate(t, policies, m - 1, employees, clock, policies[i].id);
    }
  }

  /** After a run, the date of each policy with a period has reached the period of the run: it is that
      period's start if no date or an earlier one stood there, and otherwise what it was. */
  lemma {:induction false} RunBringsUpToDate(
    t: Tables, policies: seq<Policy>, i: nat, employees: Employees, now: Day)
    requires DistinctIds(policies) && i < |policies|
    ensures var p, start := policies[i], AccrualPeriodStart(now, policies[i].period);
      var date := Lookup(RunPolicies(t, policies, employees, ClockAt(now)).tables.lastAccruedOn, p.id);
      date == (if Behind(t.lastAccruedOn, p, now) then Some(start) else Lookup(t.lastAccruedOn, p.id))
      && (p.period != Unsupported && start != ZERO_TIME ==> date.Some? && start <= date.value)
  {
    var pr := RunPolicies(t, policies[..i], employees, ClockAt(now));
    assert policies[..|policies|] == policies;
    OtherDatesStay(t, policies, i, |policies|, employees, ClockAt(now));
    RunOneMore(t, policies, i, employees, ClockAt(now));
    StepDates(pr, policies[i], employees, now);
    RunKeepsOthers(t, policies, i, employees, ClockAt(now), policies[i].id);
    SameDateSameBehind(pr.tables.lastAccruedOn, t.lastAccruedOn, policies[i], now);
  }

  // ---- What an employee earns ------------------------------------------------------------------

  /** The whole rate for whoever had joined by the period's start; the rate in proportion to the days
      left for whoever joined within it; nothing for whoever joins after it. */
  predicate Earns(amount: real, rate: real, joined: Option<Day>, start: Day, end: Day) {
    && (joined.None? || joined.value <= start ==> amount == rate)
    && (joined.Some? && start < joined.value <= end ==>
          amount * (end - start) as real == rate * (end - joined.value) as real)
    && (joined.Some? && joined.value > end && joined.value > start ==> amount == 0.0)
  }

  lemma {:induction false} ShareOfRate(rate: real, part: real, whole: real)
    requires whole > 0.0
    ensures (rate * (part / whole)) * whole == rate * part
  {
    assert (part / whole) * whole == part;
    assert (rate * (part / whole)) * whole == rate * ((part / whole) * whole);
  }

  lemma {:induction false} AccrualEarned(rate: real, joined: Option<Day>, span: Span)
    ensures Earns(Accrual(rate, joined, span), rate, joined, span.start, span.end)
  {
    if joined.Some? && span.start < joined.value <= span.end {
      ShareOfRate(rate, (span.end - joined.value) as real, (span.end - span.start) as real);
    }
  }

  /** No two amounts are earned. */
  lemma {:induction false} EarnsOneAmount(a: real, b: real, rate: real, joined: Option<Day>, start: Day, end: Day)
    requires start < end && Earns(a, rate, joined, start, end) && Earns(b, rate, joined, start, end)
    ensures a == b
  {
    if joined.Some? && start < joined.value <= end {
      assert (a - b) * (end - start) as real == 0.0;
    }
  }

  /** What an amount earned does to a row: a new row takes it whole, an old one up to entitlement and
      carry-over, if there is an entitlement; other columns stay. */
  predicate RowTakes(before: Option<Balance>, after: Option<Balance>, amount: real, p: Policy) {
    if amount <= 0.0 then after == before
    else if before.None? then after == Some(Balance(amount, 0.0, 0.0))
    else
      && after.Some? && after.value.pending == before.value.pending && after.value.used == before.value.used
      && var full, cap := before.value.balance + amount, p.entitlement + p.carryOver;
         after.value.balance == if p.entitlement > 0.0 && full > cap then cap else full
  }

  lemma {:induction false} CreditTaken(row: Option<Balance>, amount: real, p: Policy)
    requires amount > 0.0
    ensures RowTakes(row, Some(CreditRow(row, amount, CapOf(p))), amount, p)
  {
  }

  lemma {:induction false} StepTaken(pr: Progress, p: Policy, employees: Employees, clock: Clock, key: BalanceKey)
    requires Due(pr.tables.lastAccruedOn, p, clock) && key.leaveType == p.leaveType && key.employee in employees
    ensures RowTakes(Lookup(pr.tables.balances, key),
                     Lookup(PolicyStep(pr, p, employees, clock).tables.balances, key),
                     AccrualOf(p, employees, clock, key.employee), p)
  {
    var accruals := Accruals(p, employees, SpanOf(clock, p.period));
    CreditedRow(pr.tables.balances, p, accruals, employees.Keys, key);
    if accruals[key.employee] > 0.0 {
      CreditTaken(Lookup(pr.tables.balances, key), accruals[key.employee], p);
    }
  }

  lemma {:induction false} StepElsewhere(
    pr: Progress, p: Policy, employees: Employees, clock: Clock, key: BalanceKey)
    requires !Due(pr.tables.lastAccruedOn, p, clock) || key.leaveType != p.leaveType || key.employee !in employees
    ensures Lookup(PolicyStep(pr, p, employees, clock).tables.balances, key) == Lookup(pr.tables.balances, key)
  {
    if Due(pr.tables.lastAccruedOn, p, clock) {
      CreditedRow(pr.tables.balances, p, Accruals(p, employees, SpanOf(clock, p.period)), employees.Keys, key);
    }
  }

  /** Where a run comes to a policy that is behind, each active employee's row of its leave type takes
      what they earn for the period that holds the moment of the run; all other rows stay, and so do all
      rows if the policy is not behind. */
  lemma {:induction false} RunCreditsRow(
    t: Tables, before: seq<Policy>, p: Policy, employees: Employees, now: Day, key: BalanceKey) returns (amount: real)
    ensures var here := RunPolicies(t, before, employees, ClockAt(now)).tables;
      var row := Lookup(RunPolicies(t, before + [p], employees, ClockAt(now)).tables.balances, key);
      if Behind(here.lastAccruedOn, p, now) && key.leaveType == p.leaveType && key.employee in employees
      then var start := AccrualPeriodStart(now, p.period);
           Earns(amount, p.rate, employees[key.employee], start, PeriodEnd(start, p.period))
           && RowTakes(Lookup(here.balances, key), row, amount, p)
      else row == Lookup(here.balances, key)
  {
    var clock, policies := ClockAt(now), before + [p];
    var pr := RunPolicies(t, before, employees, clock);
    assert policies[..|before|] == before && policies[..|before| + 1] == policies;
    RunOneMore(t, policies, |before|, employees, clock);
    DueIffBehind(pr.tables.lastAccruedOn, p, now);
    amount := 0.0;
    if Due(pr.tables.lastAccruedOn, p, clock) && key.leaveType == p.leaveType && key.employee in employees {
      ClockReadsPeriod(now, p.period);
      amount := AccrualOf(p, employees, clock, key.employee);
      AccrualEarned(p.rate, employees[key.employee], SpanOf(clock, p.period));
      StepTaken(pr, p, employees, clock, key);
    } else {
      StepElsewhere(pr, p, employees, clock, key);
    }
  }

  // ---- How many are credited -------------------------------------------------------------------

  /** The active employees who earn something: all but those who join at or after the period's end. */
  ghost function Earners(p: Policy, employees: Employees, end: Day): set<string> {
    set e | e in employees && p.rate > 0.0 && (employees[e].None? || employees[e].value < end)
  }

  lemma {:induction false} EarnsSomethingIff(rate: real, joined: Option<Day>, span: Span)
    ensures Accrual(rate, joined, span) > 0.0 <==> rate > 0.0 && (joined.None? || joined.value < span.end)
  {
    if joined.Some? && joined.value > span.start {
      if rate > 0.0 {
        ProrationBounds(rate, joined.value, span);
      } else {
        NothingFromNoRate(rate, joined.value, span);
      }
    }
  }

  /** The employees a policy counts as its own credits are those who earn something. */
  lemma {:induction false} OwnCreditsAreEarners(p: Policy, employees: Employees, now: Day)
    requires p.period != Unsupported
    ensures OwnCredits(p, employees, ClockAt(now))
      == |Earners(p, employees, PeriodEnd(AccrualPeriodStart(now, p.period), p.period))|
  {
    var span := SpanOf(ClockAt(now), p.period);
    ClockReadsPeriod(now, p.period);
    SameEarners(p, employees, span);
  }

  lemma {:induction false} SameEarners(p: Policy, employees: Employees, span: Span)
    ensures Credited(employees.Keys, Accruals(p, employees, span)) == Earners(p, employees, span.end)
  {
    forall e | e in employees
      ensures e in Credited(employees.Keys, Accruals(p, employees, span)) <==> e in Earners(p, employees, span.end)
    {
      EarnsSomethingIff(p.rate, employees[e], span);
    }
  }

  /** Employees credited by the policies behind their period, added up. */
  ghost function Headcount(last: map<string, Day>, policies: seq<Policy>, employees: Employees, now: Day): nat {
    if policies == [] then 0
    else
      var n := |policies| - 1;
      var p, start := policies[n], AccrualPeriodStart(now, policies[n].period);
      Headcount(last, policies[..n], employees, now)
      + if Behind(last, p, now) then |Earners(p, employees, PeriodEnd(start, p.period))| else 0
  }

  lemma {:induction false} StepHeadcount(pr: Progress, p: Policy, employees: Employees, now: Day)
    ensures PolicyStep(pr, p, employees, ClockAt(now)).accrued == pr.accrued
      + if Behind(pr.tables.lastAccruedOn, p, now)
        then |Earners(p, employees, PeriodEnd(AccrualPeriodStart(now, p.period), p.period))| else 0
  {
    DueIffBehind(pr.tables.lastAccruedOn, p, now);
    if Behind(pr.tables.lastAccruedOn, p, now) {
      OwnCreditsAreEarners(p, employees, now);
    }
  }

  /** A completed run's summary: the policies that were behind, and all the employees they credited. */
  lemma {:induction false} SummaryCounts(t: Tables, policies: seq<Policy>, employees: Employees, now: Day)
    requires DistinctIds(policies)
    ensures SummaryOf(RunPolicies(t, policies, employees, ClockAt(now)))
      == AccrualSummary(|CreditsBehind(t.lastAccruedOn, policies, now)|,
                        Headcount(t.lastAccruedOn, policies, employees, now))
  {
    RunCreditsWhoIsBehind(t, policies, employees, now);
    RunHeadcount(t, policies, employees, now);
  }

  lemma {:induction false} RunHeadcount(t: Tables, policies: seq<Policy>, employees: Employees, now: Day)
    requires DistinctIds(policies)
    ensures RunPolicies(t, policies, employees, ClockAt(now)).accrued
      == Headcount(t.lastAccruedOn, policies, employees, now)
  {
    if policies != [] {
      var n := |policies| - 1;
      var pr := RunPolicies(t, policies[..n], employees, ClockAt(now));
      RunHeadcount(t, policies[..n], employees, now);
      StepHeadcount(pr, policies[n], employees, now);
      RunKeepsOthers(t, policies, n, employees, ClockAt(now), policies[n].id);
      SameDateSameBehind(pr.tables.lastAccruedOn, t.lastAccruedOn, policies[n], now);
    }
  }

  // ---- Where a failing run stops ---------------------------------------------------------------

  /** A fault stops a run at a policy that has a period: a failed read always, a failed transaction if
      the policy is behind, and a failed upsert if the employee earns something then. */
  predicate Stops(fault: Option<Fault>, behind: bool, earners: set<string>) {
    match fault
    case None => false
    case Some(ReadFails) => true
    case Some(UpsertFails(e)) => behind && e in earners
    case Some(StatementFails) => behind
    case Some(CommitFails(_)) => behind
  }

  ghost predicate Bites(last: map<string, Day>, p: Policy, employees: Employees, now: Day, fault: Option<Fault>) {
    var start := AccrualPeriodStart(now, p.period);
    p.period != Unsupported && start != ZERO_TIME
    && Stops(fault, Behind(last, p, now), Earners(p, employees, PeriodEnd(start, p.period)))
  }

  lemma {:induction false} OutcomeBy(
    last: map<string, Day>, p: Policy, employees: Employees, clock: Clock, fault: Option<Fault>)
    requires p.period != Unsupported
    ensures PolicyOutcome(last, p, employees, clock, fault)
      == if SpanOf(clock, p.period).start != ZERO_TIME
            && Stops(fault, Due(last, p, clock), Earners(p, employees, SpanOf(clock, p.period).end))
         then Stopped(fault == Some(CommitFails(true))) else Done
  {
    SameEarners(p, employees, SpanOf(clock, p.period));
  }

  lemma {:induction false} StopsIffBitten(
    last: map<string, Day>, p: Policy, employees: Employees, now: Day, fault: Option<Fault>)
    ensures PolicyOutcome(last, p, employees, ClockAt(now), fault)
      == if Bites(last, p, employees, now, fault) then Stopped(fault == Some(CommitFails(true))) else Done
  {
    if p.period != Unsupported {
      DueIffBehind(last, p, now);
      ClockReadsPeriod(now, p.period);
      OutcomeBy(last, p, employees, ClockAt(now), fault);
    }
  }

  /** The policies a run goes through before the first one whose fault bites. */
  ghost function FirstBitten(
    last: map<string, Day>, policies: seq<Policy>, employees: Employees, now: Day, faults: map<nat, Fault>): (n: nat)
    ensures n <= |policies|
    ensures n < |policies| ==> Bites(last, policies[n], employees, now, Lookup(faults, n))
    ensures forall i :: 0 <= i < n ==> !Bites(last, policies[i], employees, now, Lookup(faults, i))
  {
    if policies == [] then 0
    else
      var n := |policies| - 1;
      var before := FirstBitten(last, policies[..n], employees, now, faults);
      if before < n || Bites(last, policies[n], employees, now, Lookup(faults, n)) then before else n + 1
  }

  /** A run goes through its policies up to the first whose fault bites, and stops there; that one's
      transaction counts as committed only if its commit was applied all the same. */
  lemma {:induction false} RunStopsWhereBitten(
    t: Tables, policies: seq<Policy>, employees: Employees, now: Day, faults: map<nat, Fault>)
    requires DistinctIds(policies)
    ensures var end := EndOf(t, policies, employees, ClockAt(now), faults);
      var n := FirstBitten(t.lastAccruedOn, policies, employees, now, faults);
      && (end.ok <==> n == |policies|) && end.passed == n
      && end.committed == n + if n < |policies| && Lookup(faults, n) == Some(CommitFails(true)) then 1 else 0
  {
    if policies != [] {
      var n := |policies| - 1;
      RunStopsWhereBitten(t, policies[..n], employees, now, faults);
      LastBitten(t, policies, employees, now, faults);
    }
  }

  lemma {:induction false} LastBitten(
    t: Tables, policies: seq<Policy>, employees: Employees, now: Day, faults: map<nat, Fault>)
    requires policies != [] && DistinctIds(policies)
    ensures var n := |policies| - 1;
      var before := EndOf(t, policies[..n], employees, ClockAt(now), faults);
      EndOf(t, policies, employees, ClockAt(now), faults) ==
        if !before.ok then before
        else if !Bites(t.lastAccruedOn, policies[n], employees, now, Lookup(faults, n)) then RunEnd(n + 1, n + 1, true)
        else RunEnd(n, if Lookup(faults, n) == Some(CommitFails(true)) then n + 1 else n, false)
  {
    var n := |policies| - 1;
    var last := RunPolicies(t, policies[..n], employees, ClockAt(now)).tables.lastAccruedOn;
    StopsIffBitten(last, policies[n], employees, now, Lookup(faults, n));
    RunKeepsOthers(t, policies, n, employees, ClockAt(now), policies[n].id);
    SameDateSameBehind(last, t.lastAccruedOn, policies[n], now);
  }
}
