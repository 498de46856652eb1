/** What a leave call answers and leaves in each table, cut off at any write, said in statuses, entries
    and days: nothing here goes by the names of the calls' own steps. */
module LeaveLaws {
  import opened Options
  import opened LeaveAccrual
  import opened LeaveWorkflow

  // ---- Who may decide --------------------------------------------------------------------------

  /** A manager is turned away if the employee is known to have a manager and they are not known to be
      that manager. Nobody else is. */
  predicate OthersReport(user: User, look: Lookups) {
    user.role == ManagerRole
    && match look.manager
       case None => false
       case Some(manager) => manager != "" && look.self != Some(manager)
  }

  // ---- Approve ---------------------------------------------------------------------------------

  /** HR is still to be asked only if the policy says so and HR is not asking. */
  function StatusGranted(user: User, look: Lookups): Status {
    if look.requiresHR == Some(true) && user.role != HRRole then PendingHR else Approved
  }

  lemma ApproveAnswers(t: LeaveTables, id: nat, user: User, look: Lookups, writes: nat)
    ensures var answer := Step(t, ApproveRequest(id, user, look, writes)).1;
      var waitsForHR := id in t.requests && t.requests[id].status == PendingHR && user.role != HRRole;
      && (answer == NotFound <==> id !in t.requests)
      && (answer == HRApprovalRequired <==> waitsForHR)
      && (answer == Forbidden <==> id in t.requests && !waitsForHR && OthersReport(user, look))
      && (answer == Ok <==>
            id in t.requests && !waitsForHR && !OthersReport(user, look)
            && (writes >= 3 || (writes == 2 && StatusGranted(user, look) == PendingHR)))
      && answer != InvalidState
  {
  }

  /** An approval that is not refused: after one write the status, pending_hr or approved; after two the
      approver's entry; after three, if approved, the days moved from pending to used in the row, if
      there is one. A refused one leaves everything. */
  lemma ApproveWrites(t: LeaveTables, id: nat, user: User, look: Lookups, writes: nat)
    ensures var (after, answer) := Step(t, ApproveRequest(id, user, look, writes));
      if answer in {NotFound, HRApprovalRequired, Forbidden} then after == t
      else
        var r, status := t.requests[id], StatusGranted(user, look);
        && after.requests == (if writes >= 1 then t.requests[id := r.(status := status)] else t.requests)
        && after.approvals == (if writes >= 2 then t.approvals + [Approval(id, user, Granted)] else t.approvals)
        && after.balances == if writes >= 3 && status == Approved && r.key in t.balances
                             then t.balances[r.key := Moved(t.balances[r.key], -r.days, r.days)] else t.balances
  {
  }

  function Moved(b: Balance, pending: real, used: real): Balance {
    Balance(b.balance, b.pending + pending, b.used + used)
  }

  /** So, complete and not refused, a request with a row becomes approved exactly if its days are used. */
  lemma DaysUsedIffApproved(t: LeaveTables, id: nat, user: User, look: Lookups)
    requires id in t.requests && t.requests[id].days > 0.0 && t.requests[id].key in t.balances
    requires Step(t, ApproveRequest(id, user, look, 3)).1 == Ok
    ensures var r, after := t.requests[id], Step(t, ApproveRequest(id, user, look, 3)).0;
      && (after.requests[id].status == Approved <==> after.balances[r.key].used == t.balances[r.key].used + r.days)
      && (after.requests[id].status != Approved ==> after.balances == t.balances)
  {
  }

  // ---- Reject and cancel -----------------------------------------------------------------------

  lemma RejectAnswers(t: LeaveTables, id: nat, user: User, look: Lookups, writes: nat)
    ensures var answer := Step(t, RejectRequest(id, user, look, writes)).1;
      && (answer == NotFound <==> id !in t.requests)
      && (answer == Forbidden <==> id in t.requests && OthersReport(user, look))
      && (answer == Ok <==> id in t.requests && !OthersReport(user, look) && writes >= 3)
      && answer !in {HRApprovalRequired, InvalidState}
  {
  }

  /** A rejection that is not refused: the status, then the rejecting entry, then the days off pending. */
  lemma RejectWrites(t: LeaveTables, id: nat, user: User, look: Lookups, writes: nat)
    ensures var (after, answer) := Step(t, RejectRequest(id, user, look, writes));
      if answer in {NotFound, Forbidden} then after == t
      else
        var r := t.requests[id];
        && after.requests == (if writes >= 1 then t.requests[id := r.(status := Rejected)] else t.requests)
        && after.approvals == (if writes >= 2 then t.approvals + [Approval(id, user, Refused)] else t.approvals)
        && after.balances == if writes >= 3 && r.key in t.balances
                             then t.balances[r.key := Moved(t.balances[r.key], -r.days, 0.0)] else t.balances
  {
  }

  /** A cancellation that is not refused: the status, then the days off pending, and no entry. */
  lemma CancelWrites(t: LeaveTables, id: nat, writes: nat)
    ensures var (after, answer) := Step(t, CancelRequest(id, writes));
      && (answer == NotFound <==> id !in t.requests)
      && (answer == InvalidState <==> id in t.requests && t.requests[id].status == Approved)
      && (answer == Ok <==> id in t.requests && t.requests[id].status != Approved && writes >= 2)
      && answer in {NotFound, InvalidState, Ok, WriteFailed}
      && if answer in {NotFound, InvalidState} then after == t
         else
           var r := t.requests[id];
           && after.requests == (if writes >= 1 then t.requests[id := r.(status := Cancelled)] else t.requests)
           && after.approvals == t.approvals
           && after.balances == if writes >= 2 && r.key in t.balances
                                then t.balances[r.key := Moved(t.balances[r.key], -r.days, 0.0)] else t.balances
  {
  }

  // ---- Create and adjust -----------------------------------------------------------------------

  /** A new request: the request, pending; then its days, in its row or a new one; then its manager's
      entry, still awaited, or, without a manager, the status pending_hr. */
  lemma CreateWrites(t: LeaveTables, id: nat, key: BalanceKey, days: real, manager: Option<User>, writes: nat)
    requires id !in t.requests
    ensures var (after, answer) := Step(t, CreateRequest(id, key, days, manager, writes));
      var status := if writes >= 3 && manager == None then PendingHR else Pending;
      && (answer == Ok <==> writes >= 3) && answer in {Ok, WriteFailed}
      && after.requests == (if writes >= 1 then t.requests[id := Request(key, days, status)] else t.requests)
      && after.balances == (if writes < 2 then t.balances
                            else if key in t.balances then t.balances[key := Moved(t.balances[key], days, 0.0)]
                            else t.balances[key := Balance(0.0, days, 0.0)])
      && after.approvals
         == t.approvals + if writes >= 3 && manager.Some? then [Approval(id, manager.value, Awaiting)] else []
  {
  }

  /** An adjustment adds to the balance, of the row or of a new one, and leaves all else alone. */
  lemma AdjustWrites(t: LeaveTables, key: BalanceKey, amount: real)
    ensures var after := Step(t, AdjustBalance(key, amount)).0;
      && after.requests == t.requests && after.approvals == t.approvals
      && after.balances == t.balances[key :=
           if key in t.balances then t.balances[key].(balance := t.balances[key].balance + amount)
           else Balance(amount, 0.0, 0.0)]
  {
  }
}
