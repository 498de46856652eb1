/** Accrual runs that read their policies in different orders, and the bound the caps give. */
module AccrualOrder {
  import opened Calendar
  import opened Options
  import opened LeaveAccrual
  import opened AccrualRuns

  /** One policy applied on its own. */
  ghost function Step(t: Tables, p: Policy, employees: Employees, clock: Clock): Tables {
    PolicyStep(Progress(t, 0, []), p, employees, clock).tables
  }

  ghost function RowOf(t: Tables, employee: string, leaveType: string): Option<Balance> {
    Lookup(t.balances, BalanceKey(employee, leaveType))
  }

  lemma CreditedRow(
    balances: map<BalanceKey, Balance>, p: Policy, accruals: map<string, real>, done: set<string>, key: BalanceKey)
    ensures Lookup(CreditEmployees(balances, p, accruals, done), key)
      == if key.leaveType == p.leaveType && key.employee in Credited(done, accruals)
         then Some(CreditRow(Lookup(balances, key), accruals[key.employee], CapOf(p)))
         else Lookup(balances, key)
  {
  }

  ghost function AsSet(policies: seq<Policy>): set<Policy> {
    set p | p in policies
  }

  // ---- One policy per leave type: any order, any retries ---------------------------------------

  ghost predicate Independent(policies: set<Policy>) {
    forall p, q :: p in policies && q in policies && p != q ==> p.id != q.id && p.leaveType != q.leaveType
  }

  /** A row stands as one step of its type's policy left it, or untouched if that policy is not done. */
  ghost predicate RowReached(
    t0: Tables, t: Tables, done: set<Policy>, employees: Employees, clock: Clock, key: BalanceKey)
  {
    && (forall p :: p in done && p.leaveType == key.leaveType ==>
          Lookup(t.balances, key) == Lookup(Step(t0, p, employees, clock).balances, key))
    && ((forall p :: p in done ==> p.leaveType != key.leaveType) ==>
          Lookup(t.balances, key) == Lookup(t0.balances, key))
  }

  ghost predicate RunReached(
    t0: Tables, t: Tables, done: set<Policy>, employees: Employees, clock: Clock, id: string)
  {
    && (forall p :: p in done && p.id == id ==>
          Lookup(t.lastAccruedOn, id) == Lookup(Step(t0, p, employees, clock).lastAccruedOn, id))
    && ((forall p :: p in done ==> p.id != id) ==>
          Lookup(t.lastAccruedOn, id) == Lookup(t0.lastAccruedOn, id))
  }

  /** `t` is `t0` with each policy of `done` applied once, whatever the order. */
  ghost predicate Reached(t0: Tables, t: Tables, done: set<Policy>, employees: Employees, clock: Clock) {
    && (forall key :: RowReached(t0, t, done, employees, clock, key))
    && (forall id :: RunReached(t0, t, done, employees, clock, id))
  }

  lemma StepRow(t: Tables, p: Policy, employees: Employees, clock: Clock, key: BalanceKey)
    ensures Lookup(Step(t, p, employees, clock).balances, key)
      == if Due(t.lastAccruedOn, p, clock) && key.leaveType == p.leaveType
         then Lookup(CreditEmployees(t.balances, p, Accruals(p, employees, SpanOf(clock, p.period)), employees.Keys),
                     key)
         else Lookup(t.balances, key)
  {
  }

  lemma StepOwnRow(a: Tables, b: Tables, p: Policy, employees: Employees, clock: Clock, key: BalanceKey)
    requires Lookup(a.balances, key) == Lookup(b.balances, key)
    requires Lookup(a.lastAccruedOn, p.id) == Lookup(b.lastAccruedOn, p.id)
    ensures Lookup(Step(a, p, employees, clock).balances, key) == Lookup(Step(b, p, employees, clock).balances, key)
    ensures Lookup(Step(a, p, employees, clock).lastAccruedOn, p.id)
      == Lookup(Step(b, p, employees, clock).lastAccruedOn, p.id)
  {
  }

  /** A policy that has been credited is not due again. */
  lemma DoneIsSkipped(t0: Tables, t: Tables, p: Policy, employees: Employees, clock: Clock)
    requires Lookup(t.lastAccruedOn, p.id) == Lookup(Step(t0, p, employees, clock).lastAccruedOn, p.id)
    ensures Step(t, p, employees, clock) == t
  {
  }

  lemma StepReaches(t0: Tables, t: Tables, done: set<Policy>, p: Policy, employees: Employees, clock: Clock)
    requires Independent(done + {p}) && Reached(t0, t, done, employees, clock)
    ensures Reached(t0, Step(t, p, employees, clock), done + {p}, employees, clock)
  {
    assert RunReached(t0, t, done, employees, clock, p.id);
    if p in done {
      DoneIsSkipped(t0, t, p, employees, clock);
      assert done + {p} == done;
    } else {
      forall key
        ensures RowReached(t0, Step(t, p, employees, clock), done + {p}, employees, clock, key)
      {
        StepReachesRow(t0, t, done, p, employees, clock, key);
      }
      forall id
        ensures RunReached(t0, Step(t, p, employees, clock), done + {p}, employees, clock, id)
      {
        StepReachesRun(t0, t, done, p, employees, clock, id);
      }
    }
  }

  lemma StepReachesRow(
    t0: Tables, t: Tables, done: set<Policy>, p: Policy, employees: Employees, clock: Clock, key: BalanceKey)
    requires Independent(done + {p}) && p !in done && Reached(t0, t, done, employees, clock)
    ensures RowReached(t0, Step(t, p, employees, clock), done + {p}, employees, clock, key)
  {
    assert RowReached(t0, t, done, employees, clock, key) && RunReached(t0, t, done, employees, clock, p.id);
    if key.leaveType == p.leaveType {
      StepOwnRow(t, t0, p, employees, clock, key);
    } else {
      StepRow(t, p, employees, clock, key);
    }
  }

  lemma StepReachesRun(
    t0: Tables, t: Tables, done: set<Policy>, p: Policy, employees: Employees, clock: Clock, id: string)
    requires Independent(done + {p}) && p !in done && Reached(t0, t, done, employees, clock)
    ensures RunReached(t0, Step(t, p, employees, clock), done + {p}, employees, clock, id)
  {
    assert RunReached(t0, t, done, employees, clock, id);
    if id == p.id {
      DueDependsOnOwnRun(t.lastAccruedOn, t0.lastAccruedOn, p, clock);
    }
  }

  lemma SameTablesAsStep(pr: Progress, p: Policy, employees: Employees, clock: Clock)
    ensures SameCore(PolicyStep(pr, p, employees, clock).tables, Step(pr.tables, p, employees, clock))
  {
  }

  lemma ReachedCore(t0: Tables, t: Tables, s: Tables, done: set<Policy>, employees: Employees, clock: Clock)
    requires SameCore(t, s) && Reached(t0, t, done, employees, clock)
    ensures Reached(t0, s, done, employees, clock)
  {
    assert forall key ::
      RowReached(t0, t, done, employees, clock, key) ==> RowReached(t0, s, done, employees, clock, key);
    assert forall id :: RunReached(t0, t, done, employees, clock, id) ==> RunReached(t0, s, done, employees, clock, id);
  }

  lemma {:induction false} RunReaches(
    t0: Tables, t: Tables, done: set<Policy>, policies: seq<Policy>, employees: Employees, clock: Clock)
    requires Independent(done + AsSet(policies)) && Reached(t0, t, done, employees, clock)
    ensures Reached(t0, RunPolicies(t, policies, employees, clock).tables, done + AsSet(policies), employees, clock)
  {
    if policies == [] {
      assert done + AsSet(policies) == done;
    } else {
      var n := |policies| - 1;
      var soFar := done + AsSet(policies[..n]);
      assert soFar + {policies[n]} == done + AsSet(policies);
      RunReaches(t0, t, done, policies[..n], employees, clock);
      LastStepReaches(t0, RunPolicies(t, policies[..n], employees, clock), soFar, policies[n], employees, clock);
    }
  }

  lemma LastStepReaches(t0: Tables, pr: Progress, done: set<Policy>, p: Policy, employees: Employees, clock: Clock)
    requires Independent(done + {p}) && Reached(t0, pr.tables, done, employees, clock)
    ensures Reached(t0, PolicyStep(pr, p, employees, clock).tables, done + {p}, employees, clock)
  {
    StepReaches(t0, pr.tables, done, p, employees, clock);
    SameTablesAsStep(pr, p, employees, clock);
    ReachedCore(t0, Step(pr.tables, p, employees, clock), PolicyStep(pr, p, employees, clock).tables,
                done + {p}, employees, clock);
  }

  /** Crediting the same set of policies once each leaves one result, whatever the path. */
  lemma ReachedIsUnique(t0: Tables, a: Tables, b: Tables, done: set<Policy>, employees: Employees, clock: Clock)
    requires Reached(t0, a, done, employees, clock) && Reached(t0, b, done, employees, clock)
    ensures SameCore(a, b)
  {
    forall key
      ensures Lookup(a.balances, key) == Lookup(b.balances, key)
    {
      assert RowReached(t0, a, done, employees, clock, key) && RowReached(t0, b, done, employees, clock, key);
    }
    forall id
      ensures Lookup(a.lastAccruedOn, id) == Lookup(b.lastAccruedOn, id)
    {
      assert RunReached(t0, a, done, employees, clock, id) && RunReached(t0, b, done, employees, clock, id);
    }
    SameLookups(a.balances, b.balances);
    SameLookups(a.lastAccruedOn, b.lastAccruedOn);
  }

  ghost function CommittedBy(attempts: seq<Attempt>): set<Policy> {
    if attempts == [] then {}
    else
      var n := |attempts| - 1;
      CommittedBy(attempts[..n]) + AsSet(attempts[n].policies[..attempts[n].committed])
  }

  ghost predicate ReorderedAttempt(a: Attempt, all: set<Policy>, employees: Employees, clock: Clock) {
    AsSet(a.policies) <= all && a.employees == employees && SameSpans(a.clock, clock, a.policies)
  }

  lemma SubsetIndependent(all: set<Policy>, some: set<Policy>)
    requires Independent(all) && some <= all
    ensures Independent(some)
  {
  }

  lemma {:induction false} AttemptReaches(
    t0: Tables, t: Tables, all: set<Policy>, done: set<Policy>, employees: Employees, clock: Clock, a: Attempt)
    requires Independent(all) && done <= all && ReorderedAttempt(a, all, employees, clock)
    requires Reached(t0, t, done, employees, clock)
    ensures done + AsSet(a.policies[..a.committed]) <= all
    ensures Reached(t0, AttemptRun(t, a).tables, done + AsSet(a.policies[..a.committed]), employees, clock)
  {
    assert AsSet(a.policies[..a.committed]) <= AsSet(a.policies);
    SubsetIndependent(all, done + AsSet(a.policies[..a.committed]));
    SameSpansSameRun(t, a.policies[..a.committed], employees, a.clock, clock);
    RunReaches(t0, t, done, a.policies[..a.committed], employees, clock);
  }

  lemma {:induction false} AttemptsReach(
    t: Tables, all: set<Policy>, employees: Employees, clock: Clock, attempts: seq<Attempt>)
    requires Independent(all)
    requires forall i :: 0 <= i < |attempts| ==> ReorderedAttempt(attempts[i], all, employees, clock)
    ensures CommittedBy(attempts) <= all
    ensures Reached(t, After(t, attempts), CommittedBy(attempts), employees, clock)
  {
    if attempts != [] {
      var n := |attempts| - 1;
      AttemptsReach(t, all, employees, clock, attempts[..n]);
      AttemptReaches(t, After(t, attempts[..n]), all, CommittedBy(attempts[..n]), employees, clock, attempts[n]);
    }
  }

  /** With one policy per leave type, attempts may fail anywhere and each read the policies in its own
      order: once every policy has been committed by some attempt, the balances and recorded period
      starts are those of one fault-free run over the policies in any order. */
  lemma {:induction false} ReorderedRetryConverges(
    t: Tables, policies: seq<Policy>, employees: Employees, clock: Clock, attempts: seq<Attempt>)
    requires Independent(AsSet(policies))
    requires forall i :: 0 <= i < |attempts| ==> ReorderedAttempt(attempts[i], AsSet(policies), employees, clock)
    requires CommittedBy(attempts) == AsSet(policies)
    ensures SameCore(After(t, attempts), RunPolicies(t, policies, employees, clock).tables)
  {
    AttemptsReach(t, AsSet(policies), employees, clock, attempts);
    RunIsReached(t, policies, employees, clock);
    ReachedIsUnique(t, After(t, attempts), RunPolicies(t, policies, employees, clock).tables,
                    AsSet(policies), employees, clock);
  }

  lemma RunIsReached(t: Tables, policies: seq<Policy>, employees: Employees, clock: Clock)
    requires Independent(AsSet(policies))
    ensures Reached(t, RunPolicies(t, policies, employees, clock).tables, AsSet(policies), employees, clock)
  {
    assert {} + AsSet(policies) == AsSet(policies);
    RunReaches(t, t, {}, policies, employees, clock);
  }

  // ---- Two policies for one leave type ---------------------------------------------------------

  predicate Fits(balance: real, cap: Option<real>) {
    cap.Some? ==> balance <= cap.value
  }

  /** The caps are equal, or neither binds; a missing row counts as zero. */
  predicate CreditsCommute(row: Option<Balance>, a: real, capA: Option<real>, b: real, capB: Option<real>) {
    var balance := if row.Some? then row.value.balance else 0.0;
    capA == capB || (Fits(balance + a + b, capA) && Fits(balance + a + b, capB))
  }

  /** The order of two credits to a row, there already or not, is immaterial exactly when they commute. */
  lemma CapsCommute(row: Option<Balance>, a: real, capA: Option<real>, b: real, capB: Option<real>)
    requires a > 0.0 && b > 0.0
    ensures CreditRow(Some(CreditRow(row, a, capA)), b, capB) == CreditRow(Some(CreditRow(row, b, capB)), a, capA)
      <==> CreditsCommute(row, a, capA, b, capB)
  {
  }

  /** Both policies are due, and credit the same leave type. */
  predicate Compete(t: Tables, p: Policy, q: Policy, clock: Clock) {
    p.leaveType == q.leaveType && Due(t.lastAccruedOn, p, clock) && Due(t.lastAccruedOn, q, clock)
  }

  function AccrualOf(p: Policy, employees: Employees, clock: Clock, e: string): real
    requires e in employees && !p.period.Unsupported?
  {
    Accrual(p.rate, employees[e], SpanOf(clock, p.period))
  }

  ghost predicate EmployeeCommutes(t: Tables, p: Policy, q: Policy, employees: Employees, clock: Clock, e: string)
    requires e in employees && !p.period.Unsupported? && !q.period.Unsupported?
  {
    var a, b := AccrualOf(p, employees, clock, e), AccrualOf(q, employees, clock, e);
    a > 0.0 && b > 0.0 ==> CreditsCommute(RowOf(t, e, p.leaveType), a, CapOf(p), b, CapOf(q))
  }

  /** One policy on one row, by the row and the policy's own last run. */
  ghost function RowStep(
    row: Option<Balance>, due: bool, p: Policy, employees: Employees, clock: Clock, key: BalanceKey): Option<Balance>
    requires due ==> !p.period.Unsupported?
  {
    if due && key.leaveType == p.leaveType && key.employee in employees
       && AccrualOf(p, employees, clock, key.employee) > 0.0
    then Some(CreditRow(row, AccrualOf(p, employees, clock, key.employee), CapOf(p)))
    else row
  }

  lemma StepIsRowStep(t: Tables, p: Policy, employees: Employees, clock: Clock, key: BalanceKey)
    ensures Lookup(Step(t, p, employees, clock).balances, key)
      == RowStep(Lookup(t.balances, key), Due(t.lastAccruedOn, p, clock), p, employees, clock, key)
  {
  }

  /** A step of another policy leaves a policy as due as it was. */
  lemma TwoSteps(t: Tables, p: Policy, q: Policy, employees: Employees, clock: Clock, key: BalanceKey)
    requires p.id != q.id
    ensures var afterP := RowStep(Lookup(t.balances, key), Due(t.lastAccruedOn, p, clock), p, employees, clock, key);
      Lookup(Step(Step(t, p, employees, clock), q, employees, clock).balances, key)
      == RowStep(afterP, Due(t.lastAccruedOn, q, clock), q, employees, clock, key)
  {
    StepIsRowStep(t, p, employees, clock, key);
    StepIsRowStep(Step(t, p, employees, clock), q, employees, clock, key);
  }

  lemma RowCommutesIff(t: Tables, p: Policy, q: Policy, employees: Employees, clock: Clock, key: BalanceKey)
    requires p.id != q.id
    ensures Lookup(Step(Step(t, p, employees, clock), q, employees, clock).balances, key)
         == Lookup(Step(Step(t, q, employees, clock), p, employees, clock).balances, key)
      <==> (Compete(t, p, q, clock) && key.leaveType == p.leaveType && key.employee in employees ==>
              EmployeeCommutes(t, p, q, employees, clock, key.employee))
  {
    TwoSteps(t, p, q, employees, clock, key);
    TwoSteps(t, q, p, employees, clock, key);
    if Compete(t, p, q, clock) && key.leaveType == p.leaveType && key.employee in employees {
      var a, b := AccrualOf(p, employees, clock, key.employee), AccrualOf(q, employees, clock, key.employee);
      if a > 0.0 && b > 0.0 {
        CapsCommute(Lookup(t.balances, key), a, CapOf(p), b, CapOf(q));
      }
    }
  }

  lemma StepDate(t: Tables, p: Policy, employees: Employees, clock: Clock)
    ensures Step(t, p, employees, clock).lastAccruedOn
      == if Due(t.lastAccruedOn, p, clock) then t.lastAccruedOn[p.id := SpanOf(clock, p.period).start]
         else t.lastAccruedOn
  {
  }

  lemma RunsCommute(t: Tables, p: Policy, q: Policy, employees: Employees, clock: Clock)
    requires p.id != q.id
    ensures Step(Step(t, p, employees, clock), q, employees, clock).lastAccruedOn
         == Step(Step(t, q, employees, clock), p, employees, clock).lastAccruedOn
  {
    StepDate(t, p, employees, clock);
    StepDate(t, q, employees, clock);
    StepDate(Step(t, p, employees, clock), q, employees, clock);
    StepDate(Step(t, q, employees, clock), p, employees, clock);
  }

  /** Two policies of a run may be swapped without a difference if and only if they do not compete, or
      the credits of every employee commute; the policy query fixes no order, and no key makes leave
      types unique. */
  lemma PoliciesCommuteIff(t: Tables, p: Policy, q: Policy, employees: Employees, clock: Clock)
    requires p.id != q.id
    ensures SameCore(Step(Step(t, p, employees, clock), q, employees, clock),
                     Step(Step(t, q, employees, clock), p, employees, clock))
      <==> (Compete(t, p, q, clock) ==>
              forall e :: e in employees ==> EmployeeCommutes(t, p, q, employees, clock, e))
  {
    var pq := Step(Step(t, p, employees, clock), q, employees, clock);
    var qp := Step(Step(t, q, employees, clock), p, employees, clock);
    RunsCommute(t, p, q, employees, clock);
    if Compete(t, p, q, clock) {
      forall e | e in employees
        ensures EmployeeCommutes(t, p, q, employees, clock, e)
          <==> Lookup(pq.balances, BalanceKey(e, p.leaveType)) == Lookup(qp.balances, BalanceKey(e, p.leaveType))
      {
        RowCommutesIff(t, p, q, employees, clock, BalanceKey(e, p.leaveType));
      }
    }
    if Compete(t, p, q, clock) ==> forall e :: e in employees ==> EmployeeCommutes(t, p, q, employees, clock, e) {
      forall key
        ensures Lookup(pq.balances, key) == Lookup(qp.balances, key)
      {
        RowCommutesIff(t, p, q, employees, clock, key);
      }
      SameLookups(pq.balances, qp.balances);
    }
  }

  lemma StepOfSameCore(a: Tables, b: Tables, p: Policy, employees: Employees, clock: Clock)
    requires SameCore(a, b)
    ensures SameCore(Step(a, p, employees, clock), Step(b, p, employees, clock))
  {
  }

  lemma RunTwoMore(t: Tables, before: seq<Policy>, p: Policy, q: Policy, employees: Employees, clock: Clock)
    ensures SameCore(RunPolicies(t, before + [p, q], employees, clock).tables,
                     Step(Step(RunPolicies(t, before, employees, clock).tables, p, employees, clock),
                          q, employees, clock))
  {
    var policies, n := before + [p, q], |before|;
    var pr := RunPolicies(t, before, employees, clock);
    assert policies[..n] == before && policies[..n + 2] == policies;
    RunOneMore(t, policies, n, employees, clock);
    RunOneMore(t, policies, n + 1, employees, clock);
    var first := PolicyStep(pr, p, employees, clock);
    SameTablesAsStep(pr, p, employees, clock);
    SameTablesAsStep(first, q, employees, clock);
    StepOfSameCore(first.tables, Step(pr.tables, p, employees, clock), q, employees, clock);
  }

  /** Swapping two adjacent policies of a run changes nothing if and only if, where the run comes to
      them, they do not compete or their credits commute. */
  lemma SwapInRunIff(t: Tables, before: seq<Policy>, p: Policy, q: Policy, employees: Employees, clock: Clock)
    requires p.id != q.id
    ensures var here := RunPolicies(t, before, employees, clock).tables;
      SameCore(RunPolicies(t, before + [p, q], employees, clock).tables,
               RunPolicies(t, before + [q, p], employees, clock).tables)
      <==> (Compete(here, p, q, clock) ==>
              forall e :: e in employees ==> EmployeeCommutes(here, p, q, employees, clock, e))
  {
    RunTwoMore(t, before, p, q, employees, clock);
    RunTwoMore(t, before, q, p, employees, clock);
    PoliciesCommuteIff(RunPolicies(t, before, employees, clock).tables, p, q, employees, clock);
  }

  // ---- The bound the caps give -----------------------------------------------------------------

  ghost predicate OneCappedPolicyPerType(policies: set<Policy>) {
    && (forall p :: p in policies ==> CapOf(p).Some?)
    && forall p, q :: p in policies && q in policies && p.leaveType == q.leaveType ==> p == q
  }

  /** A row is at most its type's cap, or the rate when a first, uncapped insert was larger. */
  ghost predicate RowWithinCap(t: Tables, p: Policy, employee: string) {
    match RowOf(t, employee, p.leaveType)
    case None => true
    case Some(row) => CapOf(p).Some? && (row.balance <= CapOf(p).value || row.balance <= p.rate)
  }

  ghost predicate WithinCaps(t: Tables, policies: set<Policy>) {
    forall p, e :: p in policies ==> RowWithinCap(t, p, e)
  }

  lemma StepWithinCaps(pr: Progress, policies: set<Policy>, p: Policy, employees: Employees, clock: Clock)
    requires OneCappedPolicyPerType(policies) && p in policies && WithinCaps(pr.tables, policies)
    ensures WithinCaps(PolicyStep(pr, p, employees, clock).tables, policies)
  {
    var t := pr.tables;
    if Due(t.lastAccruedOn, p, clock) {
      var s := PolicyStep(pr, p, employees, clock).tables;
      var span := SpanOf(clock, p.period);
      var accruals := Accruals(p, employees, span);
      forall q, e | q in policies
        ensures RowWithinCap(s, q, e)
      {
        assert RowWithinCap(t, q, e);
        CreditedRow(t.balances, p, accruals, employees.Keys, BalanceKey(e, q.leaveType));
        if q.leaveType == p.leaveType && e in Credited(employees.Keys, accruals) {
          AccrualAtMostRate(p.rate, employees[e], span);
        }
      }
    }
  }

  lemma {:induction false} RunWithinCaps(
    t: Tables, all: set<Policy>, policies: seq<Policy>, employees: Employees, clock: Clock)
    requires OneCappedPolicyPerType(all) && WithinCaps(t, all) && (forall p :: p in policies ==> p in all)
    ensures WithinCaps(RunPolicies(t, policies, employees, clock).tables, all)
  {
    if policies != [] {
      var n := |policies| - 1;
      RunWithinCaps(t, all, policies[..n], employees, clock);
      StepWithinCaps(RunPolicies(t, policies[..n], employees, clock), all, policies[n], employees, clock);
    }
  }

  /** With one capped policy per leave type, no sequence of accrual runs, over any dates and
      employees and with any failures, takes a balance above both the cap and the rate. */
  lemma {:induction false} AccrualsStayWithinCaps(t: Tables, all: set<Policy>, attempts: seq<Attempt>)
    requires OneCappedPolicyPerType(all) && WithinCaps(t, all)
    requires forall i, p :: 0 <= i < |attempts| && p in attempts[i].policies ==> p in all
    ensures WithinCaps(After(t, attempts), all)
  {
    if attempts != [] {
      var n := |attempts| - 1;
      AccrualsStayWithinCaps(t, all, attempts[..n]);
      var a := attempts[n];
      RunWithinCaps(After(t, attempts[..n]), all, a.policies[..a.committed], a.employees, a.clock);
    }
  }

  // ---- Histories that fall short ---------------------------------------------------------------

  lemma StepFromNothing(p: Policy, employees: Employees, clock: Clock, e: string)
    requires e in employees && employees[e] == None && p.rate > 0.0 && !p.period.Unsupported?
    requires SpanOf(clock, p.period).start != ZERO_TIME
    ensures Due(map[], p, clock)
    ensures Lookup(Step(NOTHING, p, employees, clock).balances, BalanceKey(e, p.leaveType))
      == Some(Balance(p.rate, 0.0, 0.0))
  {
  }

  /** The first run of a policy whose rate exceeds its cap leaves a balance above the cap. */
  lemma {:induction false} FirstRunExceedsCap(p: Policy, employees: Employees, clock: Clock, e: string)
    returns (attempts: seq<Attempt>)
    requires e in employees && employees[e] == None && !p.period.Unsupported?
    requires SpanOf(clock, p.period).start != ZERO_TIME && CapOf(p).Some? && p.rate > CapOf(p).value && p.rate > 0.0
    ensures var row := RowOf(After(NOTHING, attempts), e, p.leaveType); row.Some? && row.value.balance > CapOf(p).value
  {
    var policies := [p];
    attempts := [Attempt(policies, employees, clock, 1)];
    assert policies[..1] == policies && policies[..0] == [] && attempts[..0] == [];
    assert After(NOTHING, attempts[..0]) == NOTHING;
    StepFromNothing(p, employees, clock, e);
    RunOneMore(NOTHING, policies, 0, employees, clock);
    SameTablesAsStep(Progress(NOTHING, 0, []), p, employees, clock);
  }

  /** Two policies of one leave type with different caps, together above one of them: whichever the
      first run reads first makes a difference. */
  lemma PolicyOrderMatters(p: Policy, q: Policy, employees: Employees, clock: Clock, e: string)
    requires p.id != q.id && p.leaveType == q.leaveType && !p.period.Unsupported? && !q.period.Unsupported?
    requires e in employees && employees[e] == None && p.rate > 0.0 && q.rate > 0.0
    requires SpanOf(clock, p.period).start != ZERO_TIME && SpanOf(clock, q.period).start != ZERO_TIME
    requires CapOf(p) != CapOf(q) && !Fits(p.rate + q.rate, CapOf(p))
    ensures !SameCore(RunPolicies(NOTHING, [p, q], employees, clock).tables,
                      RunPolicies(NOTHING, [q, p], employees, clock).tables)
  {
    StepFromNothing(p, employees, clock, e);
    StepFromNothing(q, employees, clock, e);
    assert !EmployeeCommutes(NOTHING, p, q, employees, clock, e);
    SwapInRunIff(NOTHING, [], p, q, employees, clock);
    assert [] + [p, q] == [p, q] && [] + [q, p] == [q, p];
  }
}
