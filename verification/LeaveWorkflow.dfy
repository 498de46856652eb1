/** Leave requests: created, approved, rejected and cancelled by calls that write one table after
    another without a transaction, beside accruals and adjustments of the same balance rows. */
module LeaveWorkflow {
  import opened Options
  import opened LeaveAccrual

  datatype Status = Pending | PendingHR | Approved | Rejected | Cancelled

  datatype Role = EmployeeRole | ManagerRole | HRRole | OtherRole

  datatype User = User(id: string, role: Role)

  datatype Request = Request(key: BalanceKey, days: real, status: Status)

  datatype Decision = Awaiting | Granted | Refused

  datatype Approval = Approval(request: nat, approver: User, decision: Decision)

  datatype LeaveTables = LeaveTables(
    requests: map<nat, Request>, balances: map<BalanceKey, Balance>, approvals: seq<Approval>)

  datatype Answer = Ok | NotFound | HRApprovalRequired | Forbidden | InvalidState | WriteFailed

  /** What the approval lookups return; None is a failed lookup. */
  datatype Lookups = Lookups(requiresHR: Option<bool>, manager: Option<string>, self: Option<string>)

  predicate Open(status: Status) {
    status == Pending || status == PendingHR
  }

  // ---- Statements ------------------------------------------------------------------------------

  function SetStatus(t: LeaveTables, id: nat, status: Status): LeaveTables
    requires id in t.requests
  {
    t.(requests := t.requests[id := t.requests[id].(status := status)])
  }

  function InsertApproval(t: LeaveTables, id: nat, approver: User, decision: Decision): LeaveTables {
    t.(approvals := t.approvals + [Approval(id, approver, decision)])
  }

  /** An upsert. */
  function AddPending(t: LeaveTables, key: BalanceKey, days: real): LeaveTables {
    t.(balances := t.balances[key :=
      if key in t.balances then t.balances[key].(pending := t.balances[key].pending + days)
      else Balance(0.0, days, 0.0)])
  }

  /** An update: without a row, nothing happens. */
  function MoveToUsed(t: LeaveTables, key: BalanceKey, days: real): LeaveTables {
    if key !in t.balances then t
    else
      var b := t.balances[key];
      t.(balances := t.balances[key := b.(pending := b.pending - days, used := b.used + days)])
  }

  function DropPending(t: LeaveTables, key: BalanceKey, days: real): LeaveTables {
    if key !in t.balances then t
    else
      var b := t.balances[key];
      t.(balances := t.balances[key := b.(pending := b.pending - days)])
  }

  function Adjust(t: LeaveTables, key: BalanceKey, amount: real): LeaveTables {
    t.(balances := t.balances[key :=
      if key in t.balances then t.balances[key].(balance := t.balances[key].balance + amount)
      else Balance(amount, 0.0, 0.0)])
  }

  // ---- Calls; `writes` is how many of a call's writes succeed before one fails ------------------

  /** A request without a manager to ask goes straight to HR. */
  function Create(t: LeaveTables, id: nat, key: BalanceKey, days: real, manager: Option<User>, writes: nat)
    : (LeaveTables, Answer)
  {
    if writes == 0 then (t, WriteFailed)
    else
      var inserted := t.(requests := t.requests[id := Request(key, days, Pending)]);
      if writes == 1 then (inserted, WriteFailed)
      else
        var counted := AddPending(inserted, key, days);
        if writes == 2 then (counted, WriteFailed)
        else if manager.Some? then (InsertApproval(counted, id, manager.value, Awaiting), Ok)
        else (SetStatus(counted, id, PendingHR), Ok)
  }

  /** A manager may only decide for their own reports, as far as the lookups can tell. */
  predicate NotTheManager(user: User, look: Lookups) {
    user.role == ManagerRole && look.manager.Some? && look.manager.value != ""
    && !(look.self.Some? && look.self.value != "" && look.self.value == look.manager.value)
  }

  predicate RequiresHR(look: Lookups) {
    look.requiresHR == Some(true)
  }

  function Refusal(t: LeaveTables, id: nat, user: User, look: Lookups): Option<Answer> {
    if id !in t.requests then Some(NotFound)
    else if t.requests[id].status == PendingHR && user.role != HRRole then Some(HRApprovalRequired)
    else if NotTheManager(user, look) then Some(Forbidden)
    else None
  }

  function NextStatus(user: User, look: Lookups): Status {
    if RequiresHR(look) && user.role != HRRole then PendingHR else Approved
  }

  function Approve(t: LeaveTables, id: nat, user: User, look: Lookups, writes: nat): (LeaveTables, Answer) {
    var refusal := Refusal(t, id, user, look);
    if refusal.Some? then (t, refusal.value)
    else if writes == 0 then (t, WriteFailed)
    else
      var r := t.requests[id];
      var decided := SetStatus(t, id, NextStatus(user, look));
      if writes == 1 then (decided, WriteFailed)
      else
        var entered := InsertApproval(decided, id, user, Granted);
        if NextStatus(user, look) != Approved then (entered, Ok)
        else if writes == 2 then (entered, WriteFailed)
        else (MoveToUsed(entered, r.key, r.days), Ok)
  }

  function Reject(t: LeaveTables, id: nat, user: User, look: Lookups, writes: nat): (LeaveTables, Answer) {
    if id !in t.requests then (t, NotFound)
    else if NotTheManager(user, look) then (t, Forbidden)
    else if writes == 0 then (t, WriteFailed)
    else
      var r := t.requests[id];
      var decided := SetStatus(t, id, Rejected);
      if writes == 1 then (decided, WriteFailed)
      else
        var entered := InsertApproval(decided, id, user, Refused);
        if writes == 2 then (entered, WriteFailed) else (DropPending(entered, r.key, r.days), Ok)
  }

  function Cancel(t: LeaveTables, id: nat, writes: nat): (LeaveTables, Answer) {
    if id !in t.requests then (t, NotFound)
    else if t.requests[id].status == Approved then (t, InvalidState)
    else if writes == 0 then (t, WriteFailed)
    else
      var r := t.requests[id];
      var decided := SetStatus(t, id, Cancelled);
      if writes == 1 then (decided, WriteFailed) else (DropPending(decided, r.key, r.days), Ok)
  }

  datatype Event =
    | CreateRequest(id: nat, key: BalanceKey, days: real, manager: Option<User>, writes: nat)
    | ApproveRequest(id: nat, user: User, look: Lookups, writes: nat)
    | RejectRequest(id: nat, user: User, look: Lookups, writes: nat)
    | CancelRequest(id: nat, writes: nat)
    | AdjustBalance(key: BalanceKey, amount: real)
    | AccrualUpsert(key: BalanceKey, accrual: real, cap: Option<real>)

  function Step(t: LeaveTables, ev: Event): (LeaveTables, Answer) {
    match ev
    case CreateRequest(id, key, days, manager, writes) =>
      if id in t.requests then (t, WriteFailed) else Create(t, id, key, days, manager, writes)
    case ApproveRequest(id, user, look, writes) => Approve(t, id, user, look, writes)
    case RejectRequest(id, user, look, writes) => Reject(t, id, user, look, writes)
    case CancelRequest(id, writes) => Cancel(t, id, writes)
    case AdjustBalance(key, amount) => (Adjust(t, key, amount), Ok)
    case AccrualUpsert(key, accrual, cap) => (t.(balances := Upsert(t.balances, key, accrual, cap)), Ok)
  }

  const EMPTY := LeaveTables(map[], map[], [])

  /** The tables before each call of a run, and after the last. */
  ghost function States(events: seq<Event>): (states: seq<LeaveTables>)
    ensures |states| == |events| + 1
  {
    if events == [] then [EMPTY]
    else
      var n := |events| - 1;
      var before := States(events[..n]);
      before + [Step(before[n], events[n]).0]
  }

  /** A decision that the call itself turns down. */
  predicate TurnedDown(t: LeaveTables, ev: Event) {
    match ev
    case ApproveRequest(id, user, look, _) => Refusal(t, id, user, look).Some?
    case RejectRequest(id, user, look, _) => id !in t.requests || NotTheManager(user, look)
    case CancelRequest(id, _) => id !in t.requests || t.requests[id].status == Approved
    case _ => false
  }

  predicate Decides(ev: Event) {
    ev.ApproveRequest? || ev.RejectRequest? || ev.CancelRequest?
  }
}
