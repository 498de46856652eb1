/** Approvals by HR: no step around them, and which runs leave an entry for each. */
module LeaveApprovals {
  import opened Options
  import opened LeaveAccrual
  import opened LeaveWorkflow
  import opened LeaveBalances

  /** Under any policy and with any failures, no single call takes a request that waits for HR to
      approved, unless HR makes it. */
  lemma NoStepSkipsHR(t: LeaveTables, ev: Event, id: nat)
    requires id in t.requests && t.requests[id].status == PendingHR
    requires id in Step(t, ev).0.requests && Step(t, ev).0.requests[id].status == Approved
    ensures ev.ApproveRequest? && ev.id == id && ev.user.role == HRRole
  {
  }

  predicate PolicyAsksHR(ev: Event) {
    ev.ApproveRequest? ==> RequiresHR(ev.look)
  }

  /** Whatever fails, used days grow only when HR approves. */
  lemma UsedGrowsOnlyByHR(t: LeaveTables, ev: Event, key: BalanceKey)
    requires PolicyAsksHR(ev) && UsedOf(Step(t, ev).0, key) > UsedOf(t, key)
    ensures ev.ApproveRequest? && ev.user.role == HRRole && ev.id in t.requests && t.requests[ev.id].key == key
  {
  }

  ghost predicate GrantedByHR(t: LeaveTables, id: nat) {
    exists i :: 0 <= i < |t.approvals| && t.approvals[i].request == id
                && t.approvals[i].approver.role == HRRole && t.approvals[i].decision == Granted
  }

  ghost predicate ApprovedByHR(t: LeaveTables) {
    forall id :: id in t.requests && t.requests[id].status == Approved ==> GrantedByHR(t, id)
  }

  /** A first HR approval cut off between the status and its approval entry. */
  ghost predicate LosesEntry(t: LeaveTables, ev: Event) {
    ev.ApproveRequest? && ev.id in t.requests && ev.user.role == HRRole && ev.writes == 1 && !GrantedByHR(t, ev.id)
  }

  lemma StepKeepsApprovals(t: LeaveTables, ev: Event, id: nat)
    requires GrantedByHR(t, id)
    ensures GrantedByHR(Step(t, ev).0, id)
  {
    var i :| 0 <= i < |t.approvals| && t.approvals[i].request == id
             && t.approvals[i].approver.role == HRRole && t.approvals[i].decision == Granted;
    assert Step(t, ev).0.approvals[i] == t.approvals[i];
  }

  /** What a call newly approves without losing the entry has one. */
  lemma NewlyApproved(t: LeaveTables, ev: Event, id: nat)
    requires PolicyAsksHR(ev) && !LosesEntry(t, ev) && !GrantedByHR(t, id)
    requires !(id in t.requests && t.requests[id].status == Approved)
    requires id in Step(t, ev).0.requests && Step(t, ev).0.requests[id].status == Approved
    ensures GrantedByHR(Step(t, ev).0, id)
  {
    assert ev.ApproveRequest? && ev.id == id;
    assert Step(t, ev).0.approvals[|t.approvals|] == Approval(id, ev.user, Granted);
  }

  lemma StepKeepsHRGate(t: LeaveTables, ev: Event, id: nat)
    requires ApprovedByHR(t) && PolicyAsksHR(ev) && !LosesEntry(t, ev)
    requires id in Step(t, ev).0.requests && Step(t, ev).0.requests[id].status == Approved
    ensures GrantedByHR(Step(t, ev).0, id)
  {
    if GrantedByHR(t, id) {
      StepKeepsApprovals(t, ev, id);
    } else {
      NewlyApproved(t, ev, id);
    }
  }

  lemma LostEntryBreaksHRGate(t: LeaveTables, ev: Event)
    requires LosesEntry(t, ev)
    ensures !ApprovedByHR(Step(t, ev).0)
  {
    var after := Step(t, ev).0;
    assert after.approvals == t.approvals;
    assert after.requests[ev.id].status == Approved && !GrantedByHR(after, ev.id);
  }

  ghost predicate GateThroughout(events: seq<Event>) {
    ApprovedByHR(States(events)[|events|]) && (events != [] ==> GateThroughout(events[..|events| - 1]))
  }

  ghost predicate NoEntryLost(events: seq<Event>) {
    events != [] ==>
      NoEntryLost(events[..|events| - 1]) && !LosesEntry(States(events)[|events| - 1], events[|events| - 1])
  }

  lemma StepGateIff(t: LeaveTables, ev: Event)
    requires ApprovedByHR(t) && PolicyAsksHR(ev)
    ensures ApprovedByHR(Step(t, ev).0) <==> !LosesEntry(t, ev)
  {
    var after := Step(t, ev).0;
    if LosesEntry(t, ev) {
      LostEntryBreaksHRGate(t, ev);
    } else {
      forall id | id in after.requests && after.requests[id].status == Approved
        ensures GrantedByHR(after, id)
      {
        StepKeepsHRGate(t, ev, id);
      }
    }
  }

  /** If the policy asks for HR approval at every step, then along any run, whatever fails, each
      approved request has an HR approval entry at all times if and only if no first HR approval is cut
      off right before its entry. */
  lemma {:induction false} HRGateIff(events: seq<Event>)
    requires forall i :: 0 <= i < |events| ==> PolicyAsksHR(events[i])
    ensures GateThroughout(events) <==> NoEntryLost(events)
  {
    if events != [] {
      var n := |events| - 1;
      HRGateIff(events[..n]);
      if GateThroughout(events[..n]) {
        StepGateIff(States(events[..n])[n], events[n]);
      }
    }
  }

  // ---- Where the entries come from -------------------------------------------------------------

  /** An HR approval of the request that got past its second write; nothing refuses HR a request that exists. */
  predicate HRGrants(t: LeaveTables, ev: Event, id: nat) {
    ev.ApproveRequest? && ev.id == id && ev.user.role == HRRole && !TurnedDown(t, ev) && ev.writes >= 2
  }

  lemma StepGrantsIff(t: LeaveTables, ev: Event, id: nat)
    ensures GrantedByHR(Step(t, ev).0, id) <==> GrantedByHR(t, id) || HRGrants(t, ev, id)
  {
    var after := Step(t, ev).0;
    if GrantedByHR(t, id) {
      StepKeepsApprovals(t, ev, id);
    } else if HRGrants(t, ev, id) {
      assert after.approvals[|t.approvals|] == Approval(id, ev.user, Granted);
    } else {
      assert forall i :: 0 <= i < |t.approvals| ==> after.approvals[i] == t.approvals[i];
    }
  }

  /** Under any policy, and whatever fails: a request has an HR approval entry if and only if some HR
      approval of it got past its second write. */
  lemma {:induction false} GrantedIff(events: seq<Event>, id: nat)
    ensures GrantedByHR(States(events)[|events|], id)
      <==> exists i :: 0 <= i < |events| && HRGrants(States(events)[i], events[i], id)
  {
    if events != [] {
      var n := |events| - 1;
      GrantedIff(events[..n], id);
      StepGrantsIff(States(events[..n])[n], events[n], id);
    }
  }

  // ---- Histories that fall short ---------------------------------------------------------------

  ghost predicate Reaches(events: seq<Event>, t: LeaveTables) {
    States(events)[|events|] == t
  }

  lemma Then(t: LeaveTables, events: seq<Event>, ev: Event) returns (more: seq<Event>)
    requires Reaches(events, t)
    ensures more == events + [ev] && Reaches(more, Step(t, ev).0)
  {
    more := events + [ev];
    assert more[..|events|] == events;
  }

  /** A request alone in its tables, all in agreement. */
  lemma Requested(id: nat, key: BalanceKey, days: real) returns (events: seq<Event>, t: LeaveTables)
    requires days > 0.0
    ensures |events| == 1 && Reaches(events, t) && AllAgree(t)
    ensures t.requests == map[id := Request(key, days, PendingHR)] && t.approvals == []
  {
    var create := CreateRequest(id, key, days, None, 3);
    events := Then(EMPTY, [], create);
    EmptyAgrees();
    StepAllAgree(EMPTY, create);
    t := Step(EMPTY, create).0;
  }

  /** A complete decision that nothing refuses. */
  predicate Decided(ev: Event, id: nat) {
    match ev
    case ApproveRequest(other, user, _, writes) => other == id && user.role == HRRole && writes == 3
    case RejectRequest(other, user, _, writes) => other == id && user.role == HRRole && writes == 3
    case CancelRequest(other, writes) => other == id && writes == 3
    case _ => false
  }

  lemma DecisionCloses(t: LeaveTables, ev: Event, id: nat)
    requires Decided(ev, id) && id in t.requests && t.requests[id].status == PendingHR && AllAgree(t)
    ensures AllAgree(Step(t, ev).0) && id in Step(t, ev).0.requests
    ensures Step(t, ev).0.requests[id] == t.requests[id].(status :=
      if ev.ApproveRequest? then Approved else if ev.RejectRequest? then Rejected else Cancelled)
  {
    StepAllAgree(t, ev);
  }

  lemma DecisionOnClosed(t: LeaveTables, ev: Event, id: nat)
    requires Decided(ev, id) && id in t.requests && t.requests[id].days > 0.0 && AllAgree(t)
    requires t.requests[id].status in {Rejected, Cancelled} || (t.requests[id].status == Approved && !ev.CancelRequest?)
    ensures !Agrees(Step(t, ev).0, t.requests[id].key)
  {
    assert Agrees(t, t.requests[id].key);
    assert !Settles(t, ev);
    DecisionAgreesIff(t, ev);
  }

  /** A second decision on a request that a first, complete one has closed leaves its row wrong,
      unless the request was approved and the second is a cancellation, which is refused. */
  lemma DecidedTwice(id: nat, key: BalanceKey, days: real, first: Event, second: Event) returns (events: seq<Event>)
    requires days > 0.0 && Decided(first, id) && Decided(second, id)
    requires first.ApproveRequest? ==> !second.CancelRequest?
    ensures |events| == 3 && events[1] == first && events[2] == second && !Agrees(States(events)[3], key)
  {
    var t;
    events, t := Requested(id, key, days);
    DecisionCloses(t, first, id);
    events := Then(t, events, first);
    DecisionOnClosed(Step(t, first).0, second, id);
    events := Then(Step(t, first).0, events, second);
  }

  /** An HR approval cut off after its first write leaves an approved request without an entry. */
  lemma ApprovedWithoutEntry(id: nat, key: BalanceKey, days: real, user: User, look: Lookups)
    returns (events: seq<Event>)
    requires days > 0.0 && user.role == HRRole
    ensures !ApprovedByHR(States(events)[|events|])
  {
    var t;
    events, t := Requested(id, key, days);
    var approve := ApproveRequest(id, user, look, 1);
    LostEntryBreaksHRGate(t, approve);
    events := Then(t, events, approve);
  }
}
