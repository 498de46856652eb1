/** The numbers of credited employees that accrual runs record: running totals over the policies of the
    run that wrote them, and what becomes of them in retried runs. */
module AccrualCounts {
  import opened Options
  import opened LeaveAccrual
  import opened AccrualRuns

  /** The employees a policy credits when it is due. */
  function OwnCredits(p: Policy, employees: Employees, clock: Clock): nat
    requires !p.period.Unsupported?
  {
    |Credited(employees.Keys, Accruals(p, employees, SpanOf(clock, p.period)))|
  }

  function TotalAfter(t: Tables, policies: seq<Policy>, n: nat, employees: Employees, clock: Clock): nat
    requires n <= |policies|
  {
    RunPolicies(t, policies[..n], employees, clock).accrued
  }

  // ---- One run ---------------------------------------------------------------------------------

  lemma {:induction false} StepCount(pr: Progress, p: Policy, employees: Employees, clock: Clock, id: string)
    ensures var after := PolicyStep(pr, p, employees, clock);
      if Due(pr.tables.lastAccruedOn, p, clock) && id == p.id
      then Lookup(after.tables.employeesAccrued, id) == Some(pr.accrued + OwnCredits(p, employees, clock))
      else Lookup(after.tables.employeesAccrued, id) == Lookup(pr.tables.employeesAccrued, id)
    ensures id != p.id ==>
      Lookup(PolicyStep(pr, p, employees, clock).tables.lastAccruedOn, id) == Lookup(pr.tables.lastAccruedOn, id)
  {
  }

  /** Policies leave the rows of others alone. */
  lemma {:induction false} RunKeepsOthers(
    t: Tables, policies: seq<Policy>, m: nat, employees: Employees, clock: Clock, id: string)
    requires m <= |policies| && forall i :: 0 <= i < m ==> policies[i].id != id
    ensures var after := RunPolicies(t, policies[..m], employees, clock).tables;
      Lookup(after.employeesAccrued, id) == Lookup(t.employeesAccrued, id)
      && Lookup(after.lastAccruedOn, id) == Lookup(t.lastAccruedOn, id)
    decreases m
  {
    if m > 0 {
      RunKeepsOthers(t, policies, m - 1, employees, clock, id);
      RunOneMore(t, policies, m - 1, employees, clock);
      StepCount(RunPolicies(t, policies[..m - 1], employees, clock), policies[m - 1], employees, clock, id);
    }
  }

  /** With distinct policies, a policy is due at its turn exactly if it was at the start. */
  lemma {:induction false} DueAtItsTurn(
    t: Tables, policies: seq<Policy>, m: nat, i: nat, employees: Employees, clock: Clock)
    requires m <= i < |policies| && DistinctIds(policies)
    ensures Due(RunPolicies(t, policies[..m], employees, clock).tables.lastAccruedOn, policies[i], clock)
      <==> Due(t.lastAccruedOn, policies[i], clock)
  {
    RunKeepsOthers(t, policies, m, employees, clock, policies[i].id);
    DueDependsOnOwnRun(
      RunPolicies(t, policies[..m], employees, clock).tables.lastAccruedOn, t.lastAccruedOn, policies[i], clock);
  }

  /** What a run that comes to a policy leaves in that policy's row. */
  ghost function CountRow(
    t: Tables, policies: seq<Policy>, i: nat, employees: Employees, clock: Clock): Option<nat>
    requires i < |policies|
  {
    if Due(t.lastAccruedOn, policies[i], clock)
    then Some(TotalAfter(t, policies, i, employees, clock) + OwnCredits(policies[i], employees, clock))
    else Lookup(t.employeesAccrued, policies[i].id)
  }

  lemma {:induction false} CountedAtItsTurn(
    t: Tables, policies: seq<Policy>, i: nat, employees: Employees, clock: Clock)
    requires i < |policies| && DistinctIds(policies)
    ensures Lookup(RunPolicies(t, policies[..i + 1], employees, clock).tables.employeesAccrued, policies[i].id)
      == CountRow(t, policies, i, employees, clock)
  {
    RunOneMore(t, policies, i, employees, clock);
    StepCount(RunPolicies(t, policies[..i], employees, clock), policies[i], employees, clock, policies[i].id);
    RunKeepsOthers(t, policies, i, employees, clock, policies[i].id);
    DueAtItsTurn(t, policies, i, i, employees, clock);
  }

  lemma {:induction false} OtherTurn(
    t: Tables, policies: seq<Policy>, i: nat, employees: Employees, clock: Clock, id: string)
    requires i < |policies| && policies[i].id != id
    ensures Lookup(RunPolicies(t, policies[..i + 1], employees, clock).tables.employeesAccrued, id)
      == Lookup(RunPolicies(t, policies[..i], employees, clock).tables.employeesAccrued, id)
  {
    RunOneMore(t, policies, i, employees, clock);
    StepCount(RunPolicies(t, policies[..i], employees, clock), policies[i], employees, clock, id);
  }

  /** A run records for each due policy the employees credited so far, its own included. */
  lemma {:induction false} RecordedCount(
    t: Tables, policies: seq<Policy>, i: nat, m: nat, employees: Employees, clock: Clock)
    requires i < m <= |policies| && DistinctIds(policies)
    ensures Lookup(RunPolicies(t, policies[..m], employees, clock).tables.employeesAccrued, policies[i].id)
      == CountRow(t, policies, i, employees, clock)
    decreases m
  {
    if m == i + 1 {
      CountedAtItsTurn(t, policies, i, employees, clock);
    } else {
      RecordedCount(t, policies, i, m - 1, employees, clock);
      OtherTurn(t, policies, m - 1, employees, clock, policies[i].id);
    }
  }

  /** So the number recorded for a due policy is its own if and only if the policies before it credited
      nobody. */
  lemma {:induction false} CountIsOwnIff(t: Tables, policies: seq<Policy>, i: nat, employees: Employees, clock: Clock)
    requires i < |policies| && DistinctIds(policies) && Due(t.lastAccruedOn, policies[i], clock)
    ensures Lookup(RunPolicies(t, policies, employees, clock).tables.employeesAccrued, policies[i].id)
        == Some(OwnCredits(policies[i], employees, clock))
      <==> TotalAfter(t, policies, i, employees, clock) == 0
  {
    assert policies[..|policies|] == policies;
    RecordedCount(t, policies, i, |policies|, employees, clock);
  }

  // ---- Retried runs ----------------------------------------------------------------------------

  /** How far the attempts before had come when a policy was committed. */
  ghost function CommittedFrom(attempts: seq<Attempt>, i: nat): (start: nat)
    ensures start <= i
  {
    if attempts == [] then 0
    else
      var n := |attempts| - 1;
      if i < Furthest(attempts[..n]) then CommittedFrom(attempts[..n], i) else Furthest(attempts[..n])
  }

  /** What a policy's row holds once retried runs have come past it, if the attempt that committed it
      started behind the first `start` policies. */
  ghost function RetriedRow(
    t: Tables, policies: seq<Policy>, start: nat, i: nat, employees: Employees, clock: Clock): Option<int>
    requires start <= i < |policies|
  {
    if Due(t.lastAccruedOn, policies[i], clock)
    then Some(TotalAfter(t, policies, i, employees, clock) - TotalAfter(t, policies, start, employees, clock)
              + OwnCredits(policies[i], employees, clock))
    else Lookup(t.employeesAccrued, policies[i].id)
  }

  /** What an attempt over the tables of the first k policies records for a policy it comes to. */
  lemma {:induction false} ResumedRow(
    t: Tables, s: Tables, policies: seq<Policy>, employees: Employees, clock: Clock, k: nat, i: nat)
    requires k <= i < |policies| && DistinctIds(policies)
    requires SameCore(s, RunPolicies(t, policies[..k], employees, clock).tables)
    requires Lookup(s.employeesAccrued, policies[i].id) == Lookup(t.employeesAccrued, policies[i].id)
    ensures CountRow(s, policies, i, employees, clock) == RetriedRow(t, policies, k, i, employees, clock)
  {
    ResumeBeyond(t, s, policies, k, i, employees, clock);
    DueAtItsTurn(t, policies, k, i, employees, clock);
  }

  lemma {:induction false} SkippedRow(
    t: Tables, s: Tables, policies: seq<Policy>, employees: Employees, clock: Clock, k: nat, i: nat)
    requires i < k <= |policies| && DistinctIds(policies)
    requires SameCore(s, RunPolicies(t, policies[..k], employees, clock).tables)
    ensures CountRow(s, policies, i, employees, clock) == Lookup(s.employeesAccrued, policies[i].id)
  {
    StaysNotDue(t, policies, i, k, employees, clock);
  }

  /** A policy's row after attempts that came as far as `furthest`. */
  ghost predicate RowFits(
    t: Tables, s: Tables, policies: seq<Policy>, furthest: nat, start: nat, i: nat, employees: Employees, clock: Clock)
    requires start <= i < |policies|
  {
    Lookup(s.employeesAccrued, policies[i].id)
      == if i < furthest then RetriedRow(t, policies, start, i, employees, clock)
         else Lookup(t.employeesAccrued, policies[i].id)
  }

  lemma {:induction false} RowFitsAgain(
    t: Tables, s: Tables, policies: seq<Policy>, k: nat, c: nat, start: nat, i: nat, employees: Employees, clock: Clock)
    requires start <= i < |policies| && k <= |policies| && c <= |policies| && DistinctIds(policies)
    requires SameCore(s, RunPolicies(t, policies[..k], employees, clock).tables)
    requires RowFits(t, s, policies, k, start, i, employees, clock)
    ensures RowFits(t, RunPolicies(s, policies[..c], employees, clock).tables, policies, Max(k, c),
                    if i < k then start else k, i, employees, clock)
  {
    if i < c {
      RecordedCount(s, policies, i, c, employees, clock);
      if i < k {
        SkippedRow(t, s, policies, employees, clock, k, i);
      } else {
        ResumedRow(t, s, policies, employees, clock, k, i);
      }
    } else {
      RunKeepsOthers(s, policies, c, employees, clock, policies[i].id);
    }
  }

  /** Along any failing and retried runs, a due policy's number leaves out what the attempts before the
      one that committed it had credited. */
  lemma {:induction false} RetriedCount(
    t: Tables, policies: seq<Policy>, employees: Employees, clock: Clock, attempts: seq<Attempt>, i: nat)
    requires DistinctIds(policies) && i < |policies|
    requires forall j :: 0 <= j < |attempts| ==> AttemptOf(attempts[j], policies, employees, clock)
    ensures RowFits(t, After(t, attempts), policies, Furthest(attempts), CommittedFrom(attempts, i),
                    i, employees, clock)
  {
    if attempts != [] {
      var n := |attempts| - 1;
      var s, a, k := After(t, attempts[..n]), attempts[n], Furthest(attempts[..n]);
      RetriedCount(t, policies, employees, clock, attempts[..n], i);
      RetryConverges(t, policies, employees, clock, attempts[..n]);
      SameSpansSameRun(s, policies[..a.committed], employees, a.clock, clock);
      RowFitsAgain(t, s, policies, k, a.committed, CommittedFrom(attempts[..n], i), i, employees, clock);
    }
  }

  lemma {:induction false} RetriesKeepOthers(
    t: Tables, policies: seq<Policy>, employees: Employees, clock: Clock, attempts: seq<Attempt>, id: string)
    requires forall i :: 0 <= i < |policies| ==> policies[i].id != id
    requires forall j :: 0 <= j < |attempts| ==> AttemptOf(attempts[j], policies, employees, clock)
    ensures Lookup(After(t, attempts).employeesAccrued, id) == Lookup(t.employeesAccrued, id)
  {
    if attempts != [] {
      var n := |attempts| - 1;
      var s, a := After(t, attempts[..n]), attempts[n];
      RetriesKeepOthers(t, policies, employees, clock, attempts[..n], id);
      RunKeepsOthers(s, policies, a.committed, employees, a.clock, id);
    }
  }

  /** A due policy was committed by an attempt that had nothing credited before it to leave out. */
  ghost predicate NothingLeftOut(
    t: Tables, policies: seq<Policy>, employees: Employees, clock: Clock, attempts: seq<Attempt>, i: nat)
    requires i < |policies|
  {
    Due(t.lastAccruedOn, policies[i], clock) ==>
      TotalAfter(t, policies, CommittedFrom(attempts, i), employees, clock) == 0
  }

  lemma {:induction false} SameRowIff(
    t: Tables, policies: seq<Policy>, employees: Employees, clock: Clock, start: nat, i: nat)
    requires start <= i < |policies|
    ensures RetriedRow(t, policies, start, i, employees, clock) == CountRow(t, policies, i, employees, clock)
      <==> (Due(t.lastAccruedOn, policies[i], clock) ==> TotalAfter(t, policies, start, employees, clock) == 0)
  {
  }

  lemma {:induction false} SameCountIff(
    t: Tables, policies: seq<Policy>, employees: Employees, clock: Clock, attempts: seq<Attempt>, i: nat)
    requires DistinctIds(policies) && i < |policies| == Furthest(attempts)
    requires forall j :: 0 <= j < |attempts| ==> AttemptOf(attempts[j], policies, employees, clock)
    ensures Lookup(After(t, attempts).employeesAccrued, policies[i].id)
        == Lookup(RunPolicies(t, policies, employees, clock).tables.employeesAccrued, policies[i].id)
      <==> NothingLeftOut(t, policies, employees, clock, attempts, i)
  {
    assert policies[..|policies|] == policies;
    RetriedCount(t, policies, employees, clock, attempts, i);
    RecordedCount(t, policies, i, |policies|, employees, clock);
    SameRowIff(t, policies, employees, clock, CommittedFrom(attempts, i), i);
  }

  /** Once retried runs have committed every policy, their tables are in all three columns those of a
      single fault-free run if and only if each due policy was committed by an attempt before which
      nobody had been credited. */
  lemma {:induction false} RetriedTablesAgreeIff(
    t: Tables, policies: seq<Policy>, employees: Employees, clock: Clock, attempts: seq<Attempt>)
    requires DistinctIds(policies) && Furthest(attempts) == |policies|
    requires forall j :: 0 <= j < |attempts| ==> AttemptOf(attempts[j], policies, employees, clock)
    ensures After(t, attempts) == RunPolicies(t, policies, employees, clock).tables
      <==> forall i :: 0 <= i < |policies| ==> NothingLeftOut(t, policies, employees, clock, attempts, i)
  {
    var retried, single := After(t, attempts), RunPolicies(t, policies, employees, clock).tables;
    assert policies[..|policies|] == policies;
    RetryConverges(t, policies, employees, clock, attempts);
    forall i | 0 <= i < |policies|
      ensures Lookup(retried.employeesAccrued, policies[i].id) == Lookup(single.employeesAccrued, policies[i].id)
        <==> NothingLeftOut(t, policies, employees, clock, attempts, i)
    {
      SameCountIff(t, policies, employees, clock, attempts, i);
    }
    if forall i :: 0 <= i < |policies| ==> NothingLeftOut(t, policies, employees, clock, attempts, i) {
      forall id
        ensures Lookup(retried.employeesAccrued, id) == Lookup(single.employeesAccrued, id)
      {
        if forall i :: 0 <= i < |policies| ==> policies[i].id != id {
          RetriesKeepOthers(t, policies, employees, clock, attempts, id);
          RunKeepsOthers(t, policies, |policies|, employees, clock, id);
        }
      }
      SameLookups(retried.employeesAccrued, single.employeesAccrued);
    }
  }

  lemma {:induction false} FirstPolicyCounts(
    p: Policy, policies: seq<Policy>, employees: Employees, clock: Clock, e: string)
    requires policies != [] && policies[0] == p && Due(map[], p, clock)
    requires e in employees && employees[e] == None && p.rate > 0.0
    ensures TotalAfter(NOTHING, policies, 1, employees, clock) > 0
  {
    assert e in Credited(employees.Keys, Accruals(p, employees, SpanOf(clock, p.period)));
    assert policies[..0] == [];
    RunOneMore(NOTHING, policies, 0, employees, clock);
  }

  /** From empty tables: a single run over two due policies records for the second one more than it
      credited; a run cut off between the two and a complete one record its own number. */
  lemma {:induction false} CountsDiffer(p: Policy, q: Policy, employees: Employees, clock: Clock, e: string)
    returns (attempts: seq<Attempt>)
    requires p.id != q.id && Due(map[], p, clock) && Due(map[], q, clock)
    requires e in employees && employees[e] == None && p.rate > 0.0
    ensures forall j :: 0 <= j < |attempts| ==> AttemptOf(attempts[j], [p, q], employees, clock)
    ensures Lookup(RunPolicies(NOTHING, [p, q], employees, clock).tables.employeesAccrued, q.id)
      != Some(OwnCredits(q, employees, clock))
    ensures Lookup(After(NOTHING, attempts).employeesAccrued, q.id) == Some(OwnCredits(q, employees, clock))
  {
    var policies := [p, q];
    var cutOff, complete := Attempt(policies, employees, clock, 1), Attempt(policies, employees, clock, 2);
    attempts := [cutOff, complete];
    FirstPolicyCounts(p, policies, employees, clock, e);
    CountIsOwnIff(NOTHING, policies, 1, employees, clock);
    FurthestOfTwo(attempts);
    RetriedCount(NOTHING, policies, employees, clock, attempts, 1);
  }

  lemma {:induction false} FurthestOfTwo(attempts: seq<Attempt>)
    requires |attempts| == 2 && attempts[0].committed == 1 && attempts[1].committed == 2
    ensures Furthest(attempts) == 2 && CommittedFrom(attempts, 1) == 1
  {
    assert attempts[..1][..0] == [];
    assert Furthest(attempts[..1]) == 1;
  }
}
