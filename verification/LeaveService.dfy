/** The leave service as it changes its tables, write by write. A call makes the writes it is given
    before the next one fails, and then stops where it is. */
module LeaveService {
  import opened Options
  import opened LeaveAccrual
  import opened LeaveWorkflow

  class LeaveStore {
    var requests: map<nat, Request>
    var balances: map<BalanceKey, Balance>
    var approvals: seq<Approval>

    ghost function State(): LeaveTables
      reads this
    {
      LeaveTables(requests, balances, approvals)
    }

    constructor ()
      ensures State() == EMPTY
    {
      requests, balances, approvals := map[], map[], [];
    }

    // ---- Store statements ----------------------------------------------------------------------

    method UpdateRequestStatus(id: nat, status: Status)
      requires id in requests
      modifies this`requests
      ensures State() == SetStatus(old(State()), id, status)
    {
      requests := requests[id := requests[id].(status := status)];
    }

    method AddApproval(id: nat, approver: User, decision: Decision)
      modifies this`approvals
      ensures State() == InsertApproval(old(State()), id, approver, decision)
    {
      approvals := approvals + [Approval(id, approver, decision)];
    }

    method AddPendingBalance(key: BalanceKey, days: real)
      modifies this`balances
      ensures State() == AddPending(old(State()), key, days)
    {
      var row := if key in balances then balances[key] else Balance(0.0, 0.0, 0.0);
      balances := balances[key := row.(pending := row.pending + days)];
    }

    method UpdateBalanceOnApproval(key: BalanceKey, days: real)
      modifies this`balances
      ensures State() == MoveToUsed(old(State()), key, days)
    {
      if key in balances {
        var row := balances[key];
        balances := balances[key := row.(pending := row.pending - days, used := row.used + days)];
      }
    }

    method UpdateBalanceOnReject(key: BalanceKey, days: real)
      modifies this`balances
      ensures State() == DropPending(old(State()), key, days)
    {
      if key in balances {
        var row := balances[key];
        balances := balances[key := row.(pending := row.pending - days)];
      }
    }

    // ---- Service calls -------------------------------------------------------------------------

    method CreateRequest(id: nat, key: BalanceKey, days: real, manager: Option<User>, writes: nat)
      returns (answer: Answer)
      requires id !in requests
      modifies this
      ensures (State(), answer) == Step(old(State()), Event.CreateRequest(id, key, days, manager, writes))
    {
      if writes == 0 {
        return WriteFailed;
      }
      requests := requests[id := Request(key, days, Pending)];
      if writes == 1 {
        return WriteFailed;
      }
      AddPendingBalance(key, days);
      if writes == 2 {
        return WriteFailed;
      }
      if manager.Some? {
        AddApproval(id, manager.value, Awaiting);
      } else {
        UpdateRequestStatus(id, PendingHR);
      }
      answer := Answer.Ok;
    }

    method ApproveRequest(id: nat, user: User, look: Lookups, writes: nat) returns (answer: Answer)
      modifies this
      ensures (State(), answer) == Step(old(State()), Event.ApproveRequest(id, user, look, writes))
    {
      if id !in requests {
        return NotFound;
      }
      var r := requests[id];
      if r.status == PendingHR && user.role != HRRole {
        return HRApprovalRequired;
      }
      if NotTheManager(user, look) {
        return Forbidden;
      }
      var finalApproval := !RequiresHR(look) || user.role == HRRole;
      if writes == 0 {
        return WriteFailed;
      }
      UpdateRequestStatus(id, if finalApproval then Approved else PendingHR);
      if writes == 1 {
        return WriteFailed;
      }
      AddApproval(id, user, Granted);
      if finalApproval {
        if writes == 2 {
          return WriteFailed;
        }
        UpdateBalanceOnApproval(r.key, r.days);
      }
      answer := Answer.Ok;
    }

    method RejectRequest(id: nat, user: User, look: Lookups, writes: nat) returns (answer: Answer)
      modifies this
      ensures (State(), answer) == Step(old(State()), Event.RejectRequest(id, user, look, writes))
    {
      if id !in requests {
        return NotFound;
      }
      if NotTheManager(user, look) {
        return Forbidden;
      }
      var r := requests[id];
      if writes == 0 {
        return WriteFailed;
      }
      UpdateRequestStatus(id, Rejected);
      if writes == 1 {
        return WriteFailed;
      }
      AddApproval(id, user, Refused);
      if writes == 2 {
        return WriteFailed;
      }
      UpdateBalanceOnReject(r.key, r.days);
      answer := Answer.Ok;
    }

    method CancelRequest(id: nat, writes: nat) returns (answer: Answer)
      modifies this
      ensures (State(), answer) == Step(old(State()), Event.CancelRequest(id, writes))
    {
      if id !in requests {
        return NotFound;
      }
      var r := requests[id];
      if r.status == Approved {
        return InvalidState;
      }
      if writes == 0 {
        return WriteFailed;
      }
      UpdateRequestStatus(id, Cancelled);
      if writes == 1 {
        return WriteFailed;
      }
      UpdateBalanceOnReject(r.key, r.days);
      answer := Answer.Ok;
    }
  }
}
