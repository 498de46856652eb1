/** What whole sequences of accrual runs do: failed, retried, reordered and spread over time. */
module AccrualRuns {
  import opened Calendar
  import opened Options
  import opened LeaveAccrual

  /** A run, by the periods it found on its clock, that committed the first `committed` policies of the
      list it read, and then stopped. */
  datatype AnyAttempt = Attempt(policies: seq<Policy>, employees: Employees, clock: Clock, committed: nat)

  type Attempt = a: AnyAttempt | a.committed <= |a.policies| witness Attempt([], map[], SOME_CLOCK, 0)

  const SOME_CLOCK: Clock := Clock(Span(0, 7), Span(0, 31), Span(0, 365))

  const NOTHING := Tables(map[], map[], map[])

  ghost function AttemptRun(t: Tables, a: Attempt): Progress
  {
    RunPolicies(t, a.policies[..a.committed], a.employees, a.clock)
  }

  ghost function After(t: Tables, attempts: seq<Attempt>): Tables
  {
    if attempts == [] then t
    else
      var n := |attempts| - 1;
      AttemptRun(After(t, attempts[..n]), attempts[n]).tables
  }

  ghost function CreditLog(t: Tables, attempts: seq<Attempt>): seq<Credit>
  {
    if attempts == [] then []
    else
      var n := |attempts| - 1;
      CreditLog(t, attempts[..n]) + AttemptRun(After(t, attempts[..n]), attempts[n]).credits
  }

  // ---- No period is credited twice -------------------------------------------------------------

  ghost predicate Increasing(log: seq<Credit>) {
    forall i, j :: 0 <= i < j < |log| && log[i].policy == log[j].policy ==> log[i].periodStart < log[j].periodStart
  }

  ghost predicate NoZeroRun(t: Tables) {
    forall id :: id in t.lastAccruedOn ==> t.lastAccruedOn[id] != ZERO_TIME
  }

  ghost predicate Recorded(t: Tables, log: seq<Credit>) {
    && NoZeroRun(t)
    && Increasing(log)
    && forall i :: 0 <= i < |log| ==>
         log[i].policy in t.lastAccruedOn && log[i].periodStart <= t.lastAccruedOn[log[i].policy]
  }

  lemma {:induction false} StepIsRecorded(
    pr: Progress, p: Policy, employees: Employees, clock: Clock, log: seq<Credit>)
    requires Recorded(pr.tables, log + pr.credits)
    ensures var after := PolicyStep(pr, p, employees, clock); Recorded(after.tables, log + after.credits)
  {
    if Due(pr.tables.lastAccruedOn, p, clock) {
      var credit := Credit(p.id, SpanOf(clock, p.period).start);
      assert log + PolicyStep(pr, p, employees, clock).credits == (log + pr.credits) + [credit];
    }
  }

  lemma {:induction false} RunIsRecorded(
    t: Tables, policies: seq<Policy>, employees: Employees, clock: Clock, log: seq<Credit>)
    requires Recorded(t, log)
    ensures var pr := RunPolicies(t, policies, employees, clock); Recorded(pr.tables, log + pr.credits)
  {
    if policies == [] {
      assert log + [] == log;
    } else {
      var n := |policies| - 1;
      RunIsRecorded(t, policies[..n], employees, clock, log);
      StepIsRecorded(RunPolicies(t, policies[..n], employees, clock), policies[n], employees, clock, log);
    }
  }

  /** Over any serial sequence of runs, whatever their clocks, policy lists, employees and failures,
      the credited period starts of a policy strictly increase. */
  lemma {:induction false} AtMostOneCreditPerPeriod(t: Tables, attempts: seq<Attempt>)
    requires NoZeroRun(t)
    ensures Recorded(After(t, attempts), CreditLog(t, attempts))
  {
    if attempts != [] {
      var n := |attempts| - 1;
      AtMostOneCreditPerPeriod(t, attempts[..n]);
      var a := attempts[n];
      RunIsRecorded(After(t, attempts[..n]), a.policies[..a.committed], a.employees, a.clock,
                    CreditLog(t, attempts[..n]));
    }
  }

  // ---- Retried runs, policies in a fixed order -------------------------------------------------

  /** The balances and recorded period starts agree; `employees_accrued` is a running total of the
      run that wrote it and may differ. */
  ghost predicate SameCore(a: Tables, b: Tables) {
    a.balances == b.balances && a.lastAccruedOn == b.lastAccruedOn
  }

  ghost predicate DistinctIds(policies: seq<Policy>) {
    forall i, j :: 0 <= i < j < |policies| ==> policies[i].id != policies[j].id
  }

  ghost predicate SamePeriods(a: Day, b: Day, policies: seq<Policy>) {
    forall p :: p in policies ==> AccrualPeriodStart(a, p.period) == AccrualPeriodStart(b, p.period)
  }

  ghost predicate SameSpans(a: Clock, b: Clock, policies: seq<Policy>) {
    forall p :: p in policies && !p.period.Unsupported? ==> SpanOf(a, p.period) == SpanOf(b, p.period)
  }

  /** Two moments with the same period starts read the same spans. */
  lemma ClocksOfOnePeriod(a: Day, b: Day, policies: seq<Policy>)
    requires SamePeriods(a, b, policies)
    ensures SameSpans(ClockAt(a), ClockAt(b), policies)
  {
  }

  lemma {:induction false} SameSpansSameRun(t: Tables, policies: seq<Policy>, employees: Employees, a: Clock, b: Clock)
    requires SameSpans(a, b, policies)
    ensures RunPolicies(t, policies, employees, a) == RunPolicies(t, policies, employees, b)
  {
    if policies != [] {
      var n := |policies| - 1;
      SameSpansSameRun(t, policies[..n], employees, a, b);
      assert policies[n] in policies;
    }
  }

  lemma DueDependsOnOwnRun(a: map<string, Day>, b: map<string, Day>, p: Policy, clock: Clock)
    requires Lookup(a, p.id) == Lookup(b, p.id)
    ensures Due(a, p, clock) == Due(b, p, clock)
  {
  }

  lemma NotDueOnceStepped(pr: Progress, p: Policy, employees: Employees, clock: Clock)
    ensures !Due(PolicyStep(pr, p, employees, clock).tables.lastAccruedOn, p, clock)
  {
  }

  lemma {:induction false} StaysNotDue(
    t: Tables, policies: seq<Policy>, i: nat, k: nat, employees: Employees, clock: Clock)
    requires i < k <= |policies| && DistinctIds(policies)
    ensures !Due(RunPolicies(t, policies[..k], employees, clock).tables.lastAccruedOn, policies[i], clock)
    decreases k
  {
    RunOneMore(t, policies, k - 1, employees, clock);
    if k == i + 1 {
      NotDueOnceStepped(RunPolicies(t, policies[..i], employees, clock), policies[i], employees, clock);
    } else {
      StaysNotDue(t, policies, i, k - 1, employees, clock);
    }
  }

  lemma SameCoreSkip(a: Progress, b: Progress, p: Policy, employees: Employees, clock: Clock)
    requires SameCore(a.tables, b.tables) && !Due(b.tables.lastAccruedOn, p, clock)
    ensures PolicyStep(a, p, employees, clock) == a
  {
  }

  lemma ResumeSkips(
    t: Tables, resumed: Progress, policies: seq<Policy>, k: nat, i: nat, employees: Employees, clock: Clock)
    requires i < k <= |policies| && DistinctIds(policies)
    requires SameCore(resumed.tables, RunPolicies(t, policies[..k], employees, clock).tables)
    ensures PolicyStep(resumed, policies[i], employees, clock) == resumed
  {
    StaysNotDue(t, policies, i, k, employees, clock);
    SameCoreSkip(resumed, RunPolicies(t, policies[..k], employees, clock), policies[i], employees, clock);
  }

  /** A run over the state left by the first k policies skips them... */
  lemma {:induction false} ResumeWithin(
    t: Tables, s: Tables, policies: seq<Policy>, k: nat, j: nat, employees: Employees, clock: Clock)
    requires j <= k <= |policies| && DistinctIds(policies)
    requires SameCore(s, RunPolicies(t, policies[..k], employees, clock).tables)
    ensures RunPolicies(s, policies[..j], employees, clock) == Progress(s, 0, [])
    decreases j
  {
    if j > 0 {
      ResumeWithin(t, s, policies, k, j - 1, employees, clock);
      ResumeSkips(t, Progress(s, 0, []), policies, k, j - 1, employees, clock);
      RunOneMore(s, policies, j - 1, employees, clock);
    }
  }

  /** Two runs of which one has credited `done` more employees, and is otherwise as far as the other. */
  ghost predicate Follows(resumed: Progress, single: Progress, done: nat) {
    SameCore(resumed.tables, single.tables) && resumed.accrued + done == single.accrued
  }

  lemma FollowsStep(a: Progress, b: Progress, done: nat, p: Policy, employees: Employees, clock: Clock)
    requires Follows(a, b, done)
    ensures Follows(PolicyStep(a, p, employees, clock), PolicyStep(b, p, employees, clock), done)
  {
  }

  lemma {:induction false} FollowsOneMore(
    t: Tables, s: Tables, policies: seq<Policy>, i: nat, done: nat, employees: Employees, clock: Clock)
    requires i < |policies|
    requires Follows(RunPolicies(s, policies[..i], employees, clock),
                     RunPolicies(t, policies[..i], employees, clock), done)
    ensures Follows(RunPolicies(s, policies[..i + 1], employees, clock),
                    RunPolicies(t, policies[..i + 1], employees, clock), done)
  {
    RunOneMore(s, policies, i, employees, clock);
    RunOneMore(t, policies, i, employees, clock);
    FollowsStep(
      RunPolicies(s, policies[..i], employees, clock), RunPolicies(t, policies[..i], employees, clock),
      done, policies[i], employees, clock);
  }

  /** Runs that agree on the core tables after k policies go on to do so. */
  lemma {:induction false} FollowsOn(
    t: Tables, s: Tables, policies: seq<Policy>, k: nat, j: nat, done: nat, employees: Employees, clock: Clock)
    requires k <= j <= |policies|
    requires Follows(RunPolicies(s, policies[..k], employees, clock),
                     RunPolicies(t, policies[..k], employees, clock), done)
    ensures Follows(RunPolicies(s, policies[..j], employees, clock),
                    RunPolicies(t, policies[..j], employees, clock), done)
    decreases j
  {
    if k < j {
      FollowsOn(t, s, policies, k, j - 1, done, employees, clock);
      FollowsOneMore(t, s, policies, j - 1, done, employees, clock);
    }
  }

  /** ...and carries on where they stopped, with its own total of employees. */
  lemma {:induction false} ResumeBeyond(
    t: Tables, s: Tables, policies: seq<Policy>, k: nat, j: nat, employees: Employees, clock: Clock)
    requires k <= j <= |policies| && DistinctIds(policies)
    requires SameCore(s, RunPolicies(t, policies[..k], employees, clock).tables)
    ensures Follows(RunPolicies(s, policies[..j], employees, clock), RunPolicies(t, policies[..j], employees, clock),
                    RunPolicies(t, policies[..k], employees, clock).accrued)
  {
    ResumeWithin(t, s, policies, k, k, employees, clock);
    FollowsOn(t, s, policies, k, j, RunPolicies(t, policies[..k], employees, clock).accrued, employees, clock);
  }

  lemma Resume(t: Tables, s: Tables, policies: seq<Policy>, k: nat, j: nat, employees: Employees, clock: Clock)
    requires k <= |policies| && j <= |policies| && DistinctIds(policies)
    requires SameCore(s, RunPolicies(t, policies[..k], employees, clock).tables)
    ensures SameCore(RunPolicies(s, policies[..j], employees, clock).tables,
                     RunPolicies(t, policies[..Max(k, j)], employees, clock).tables)
  {
    if j <= k {
      ResumeWithin(t, s, policies, k, j, employees, clock);
    } else {
      ResumeBeyond(t, s, policies, k, j, employees, clock);
    }
  }

  function Max(a: nat, b: nat): nat {
    if a <= b then b else a
  }

  /** The most policies any of the attempts committed. */
  ghost function Furthest(attempts: seq<Attempt>): nat {
    if attempts == [] then 0
    else
      var n := |attempts| - 1;
      Max(Furthest(attempts[..n]), attempts[n].committed)
  }

  ghost predicate AttemptOf(a: Attempt, policies: seq<Policy>, employees: Employees, clock: Clock) {
    a.policies == policies && a.employees == employees && SameSpans(a.clock, clock, policies)
  }

  lemma {:induction false} OneMoreAttempt(
    t: Tables, s: Tables, policies: seq<Policy>, employees: Employees, clock: Clock, k: nat, a: Attempt)
    requires k <= |policies| && DistinctIds(policies) && AttemptOf(a, policies, employees, clock)
    requires SameCore(s, RunPolicies(t, policies[..k], employees, clock).tables)
    ensures SameCore(AttemptRun(s, a).tables,
                     RunPolicies(t, policies[..Max(k, a.committed)], employees, clock).tables)
  {
    SameSpansSameRun(s, policies[..a.committed], employees, a.clock, clock);
    Resume(t, s, policies, k, a.committed, employees, clock);
  }

  /** Crash and retry: however many runs fail and wherever they fail, the balances and recorded period
      starts are those of one fault-free run over the policies the furthest of them reached. */
  lemma {:induction false} RetryConverges(
    t: Tables, policies: seq<Policy>, employees: Employees, clock: Clock, attempts: seq<Attempt>)
    requires DistinctIds(policies)
    requires forall i :: 0 <= i < |attempts| ==> AttemptOf(attempts[i], policies, employees, clock)
    ensures Furthest(attempts) <= |policies|
    ensures SameCore(After(t, attempts),
                     RunPolicies(t, policies[..Furthest(attempts)], employees, clock).tables)
  {
    if attempts != [] {
      var n := |attempts| - 1;
      RetryConverges(t, policies, employees, clock, attempts[..n]);
      OneMoreAttempt(t, After(t, attempts[..n]), policies, employees, clock, Furthest(attempts[..n]), attempts[n]);
    }
  }

  lemma {:induction false} CompletedOnce(attempts: seq<Attempt>, i: nat)
    requires i < |attempts|
    ensures attempts[i].committed <= Furthest(attempts)
  {
    if i < |attempts| - 1 {
      CompletedOnce(attempts[..|attempts| - 1], i);
    }
  }

  /** The balances and recorded period starts of any attempts, one of which completed, are those of a
      single fault-free run. */
  lemma {:induction false} OneCompletedRunSuffices(
    t: Tables, policies: seq<Policy>, employees: Employees, clock: Clock, attempts: seq<Attempt>, i: nat)
    requires DistinctIds(policies) && i < |attempts|
    requires forall j :: 0 <= j < |attempts| ==> AttemptOf(attempts[j], policies, employees, clock)
    requires attempts[i].committed == |policies|
    ensures SameCore(After(t, attempts), RunPolicies(t, policies, employees, clock).tables)
  {
    RetryConverges(t, policies, employees, clock, attempts);
    CompletedOnce(attempts, i);
    assert policies[..Furthest(attempts)] == policies;
  }
}
