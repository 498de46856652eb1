/** Leave calls as they overlap: a call reads its request once and then makes its writes one by one,
    with those of other calls in between. */
module LeaveRaces {
  import opened Options
  import opened Sums
  import opened LeaveAccrual
  import opened LeaveWorkflow
  import opened LeaveBalances
  import opened LeaveApprovals

  datatype Verdict = Forward(user: User) | Grant(user: User) | Refuse(user: User) | Withdraw

  /** The write a call makes next. */
  datatype Stage =
    | CountPending(manager: Option<User>)
    | AskManager(asked: User)
    | AskHR
    | Decide(verdict: Verdict)
    | Record(verdict: Verdict)
    | Settle(verdict: Verdict)

  /** A call under way, with what it has read of its request. */
  datatype Call = Call(id: nat, key: BalanceKey, days: real, read: Status, stage: Stage)

  function StatusOf(v: Verdict): Status {
    match v
    case Forward(_) => PendingHR
    case Grant(_) => Approved
    case Refuse(_) => Rejected
    case Withdraw => Cancelled
  }

  function DecisionOf(v: Verdict): Decision {
    if v.Refuse? then Refused else Granted
  }

  /** One write. */
  function Apply(t: LeaveTables, c: Call): LeaveTables
    requires c.id in t.requests
  {
    match c.stage
    case CountPending(_) => AddPending(t, c.key, c.days)
    case AskManager(asked) => InsertApproval(t, c.id, asked, Awaiting)
    case AskHR => SetStatus(t, c.id, PendingHR)
    case Decide(v) => SetStatus(t, c.id, StatusOf(v))
    case Record(v) => if v.Withdraw? then t else InsertApproval(t, c.id, v.user, DecisionOf(v))
    case Settle(v) => if v.Grant? then MoveToUsed(t, c.key, c.days) else DropPending(t, c.key, c.days)
  }

  function NextStage(stage: Stage): Option<Stage> {
    match stage
    case CountPending(Some(manager)) => Some(AskManager(manager))
    case CountPending(None) => Some(AskHR)
    case AskManager(_) => None
    case AskHR => None
    case Decide(Withdraw) => Some(Settle(Withdraw))
    case Decide(v) => Some(Record(v))
    case Record(Forward(_)) => None
    case Record(v) => Some(Settle(v))
    case Settle(_) => None
  }

  /** What a decision does, by what it reads; None if it is turned down. */
  function VerdictOf(t: LeaveTables, ev: LeaveWorkflow.Event): Option<Verdict>
    requires Decides(ev)
  {
    if TurnedDown(t, ev) then None
    else
      match ev
      case ApproveRequest(_, user, look, _) =>
        Some(if NextStatus(user, look) == Approved then Grant(user) else Forward(user))
      case RejectRequest(_, user, _, _) => Some(Refuse(user))
      case CancelRequest(_, _) => Some(Withdraw)
  }

  // ---- A call on its own -----------------------------------------------------------------------

  /** The next writes of a call, nothing in between. */
  function Finish(t: LeaveTables, c: Call, writes: nat): LeaveTables
    requires c.id in t.requests
    decreases writes
  {
    if writes == 0 then t
    else
      var after := Apply(t, c);
      match NextStage(c.stage)
      case None => after
      case Some(stage) => Finish(after, c.(stage := stage), writes - 1)
  }

  function CallOf(t: LeaveTables, id: nat, stage: Stage): Call
    requires id in t.requests
  {
    Call(id, t.requests[id].key, t.requests[id].days, t.requests[id].status, stage)
  }

  lemma {:induction false} FinishOne(t: LeaveTables, c: Call, writes: nat)
    requires c.id in t.requests && writes > 0
    ensures Finish(t, c, writes) ==
      match NextStage(c.stage)
      case None => Apply(t, c)
      case Some(stage) => Finish(Apply(t, c), c.(stage := stage), writes - 1)
  {
  }

  /** Made without interruption, a decision's writes are its serial step. */
  lemma {:induction false} SerialDecision(t: LeaveTables, ev: LeaveWorkflow.Event)
    requires Decides(ev)
    ensures LeaveWorkflow.Step(t, ev).0 ==
      match VerdictOf(t, ev)
      case None => t
      case Some(v) => Finish(t, CallOf(t, ev.id, Decide(v)), ev.writes)
  {
    if VerdictOf(t, ev).Some? && ev.writes > 0 {
      var v := VerdictOf(t, ev).value;
      var c := CallOf(t, ev.id, Decide(v));
      FinishOne(t, c, ev.writes);
      if ev.writes > 1 {
        if v.Withdraw? {
          FinishOne(Apply(t, c), c.(stage := Settle(v)), ev.writes - 1);
        } else {
          FinishOne(Apply(t, c), c.(stage := Record(v)), ev.writes - 1);
          if ev.writes > 2 && !v.Forward? {
            FinishOne(Apply(Apply(t, c), c.(stage := Record(v))), c.(stage := Settle(v)), ev.writes - 2);
          }
        }
      }
    }
  }

  function Inserted(t: LeaveTables, id: nat, key: BalanceKey, days: real): LeaveTables {
    t.(requests := t.requests[id := Request(key, days, Pending)])
  }

  /** The other events are their own serial steps. */
  lemma {:induction false} SerialSingle(t: LeaveTables, ev: LeaveWorkflow.Event)
    requires ev.AdjustBalance? || ev.AccrualUpsert?
    ensures LeaveWorkflow.Step(t, ev).0 == Single(t, ev)
  {
  }

  function Creation(ev: LeaveWorkflow.Event): Call
    requires ev.CreateRequest?
  {
    Call(ev.id, ev.key, ev.days, Pending, CountPending(ev.manager))
  }

  lemma {:induction false} SerialCreate(t: LeaveTables, ev: LeaveWorkflow.Event)
    requires ev.CreateRequest? && ev.id !in t.requests && ev.writes > 0
    ensures LeaveWorkflow.Step(t, ev).0
      == Finish(Inserted(t, ev.id, ev.key, ev.days), Creation(ev), ev.writes - 1)
  {
  }

  // ---- Overlapping calls -----------------------------------------------------------------------

  datatype Race = Race(t: LeaveTables, calls: map<nat, Call>)

  /** A call starts by its read, or a create by its insert; later it makes a write, or one fails and the
      call ends there. Adjustments and accrual upserts are single statements. */
  datatype Move = Start(call: nat, ev: LeaveWorkflow.Event) | Write(call: nat) | Fail(call: nat)

  function Next(s: Race, m: Move): Race {
    match m
    case Start(call, ev) => if call in s.calls then s else Started(s, call, ev)
    case Write(call) => if Writes(s, call) then Written(s, call) else s
    case Fail(call) => s.(calls := s.calls - {call})
  }

  predicate Writes(s: Race, call: nat) {
    call in s.calls && s.calls[call].id in s.t.requests
  }

  function Started(s: Race, call: nat, ev: LeaveWorkflow.Event): Race {
    if ev.CreateRequest? then
      if ev.id in s.t.requests then s
      else Race(Inserted(s.t, ev.id, ev.key, ev.days), s.calls[call := Creation(ev)])
    else if Decides(ev) then
      match VerdictOf(s.t, ev)
      case None => s
      case Some(v) => s.(calls := s.calls[call := CallOf(s.t, ev.id, Decide(v))])
    else s.(t := Single(s.t, ev))
  }

  /** The events that are one statement each. */
  function Single(t: LeaveTables, ev: LeaveWorkflow.Event): LeaveTables {
    match ev
    case AdjustBalance(key, amount) => Adjust(t, key, amount)
    case AccrualUpsert(key, accrual, cap) => t.(balances := Upsert(t.balances, key, accrual, cap))
    case _ => t
  }

  function Written(s: Race, call: nat): Race
    requires Writes(s, call)
  {
    var c := s.calls[call];
    Race(Apply(s.t, c),
         match NextStage(c.stage)
         case None => s.calls - {call}
         case Some(stage) => s.calls[call := c.(stage := stage)])
  }

  const QUIET := Race(EMPTY, map[])

  /** The states before each move of a run, and after the last. */
  ghost function Races(moves: seq<Move>): (states: seq<Race>)
    ensures |states| == |moves| + 1
  {
    if moves == [] then [QUIET]
    else
      var n := |moves| - 1;
      var before := Races(moves[..n]);
      before + [Next(before[n], moves[n])]
  }

  // ---- Days on their way -----------------------------------------------------------------------

  /** Pending days a call has yet to write, once its status has been written. */
  function OwedPending(c: Call, key: BalanceKey): real {
    if c.key != key then 0.0
    else
      match c.stage
      case CountPending(_) => c.days
      case Record(Forward(_)) => 0.0
      case Record(_) => -c.days
      case Settle(_) => -c.days
      case _ => 0.0
  }

  function OwedUsed(c: Call, key: BalanceKey): real {
    if c.key == key && (c.stage.Record? || c.stage.Settle?) && c.stage.verdict.Grant?
    then c.days else 0.0
  }

  ghost function Column(calls: map<nat, Call>, owed: Call -> real): map<nat, real> {
    map call | call in calls :: owed(calls[call])
  }

  ghost function PendingOwed(calls: map<nat, Call>, key: BalanceKey): real {
    MapSum(Column(calls, c => OwedPending(c, key)))
  }

  ghost function UsedOwed(calls: map<nat, Call>, key: BalanceKey): real {
    MapSum(Column(calls, c => OwedUsed(c, key)))
  }

  /** The row and the days on their way to it make up the open and the approved requests' days. */
  ghost predicate Balanced(s: Race, key: BalanceKey) {
    && PendingOf(s.t, key) + PendingOwed(s.calls, key) == MapSum(OpenColumn(s.t.requests, key))
    && UsedOf(s.t, key) + UsedOwed(s.calls, key) == MapSum(ApprovedColumn(s.t.requests, key))
  }

  /** Calls know their request's row and days, and requests have days. */
  ghost predicate Linked(s: Race) {
    && (forall call :: call in s.calls ==>
          s.calls[call].id in s.t.requests && LinkedTo(s.calls[call], s.t.requests[s.calls[call].id]))
    && HasDays(s.t)
  }

  predicate LinkedTo(c: Call, r: Request) {
    c.key == r.key && c.days == r.days
  }

  predicate CountsDaysIn(m: Move) {
    m.Start? ==> CountsDays(m.ev)
  }

  lemma {:induction false} StartKeepsLinked(s: Race, call: nat, ev: LeaveWorkflow.Event)
    requires Linked(s) && CountsDays(ev) && call !in s.calls
    ensures Linked(Started(s, call, ev))
  {
  }

  lemma {:induction false} WriteKeepsLinked(s: Race, call: nat)
    requires Linked(s) && Writes(s, call)
    ensures Linked(Written(s, call))
  {
    TablesMoved(s.t, s.calls[call], s.calls[call].key);
  }

  lemma {:induction false} StepKeepsLinked(s: Race, m: Move)
    requires Linked(s) && CountsDaysIn(m)
    ensures Linked(Next(s, m))
  {
    match m
    case Start(call, ev) =>
      if call !in s.calls {
        StartKeepsLinked(s, call, ev);
      }
    case Write(call) =>
      if Writes(s, call) {
        WriteKeepsLinked(s, call);
      }
    case Fail(_) =>
  }

  /** A status write must find the request open, and a row write its row; a call must not end owing days. */
  predicate Sound(s: Race, m: Move) {
    match m
    case Start(_, _) => true
    case Write(call) => Writes(s, call) ==> SoundWrite(s.t, s.calls[call])
    case Fail(call) => call in s.calls ==> !Owes(s.calls[call].stage)
  }

  predicate SoundWrite(t: LeaveTables, c: Call)
    requires c.id in t.requests
  {
    match c.stage
    case AskHR => Open(t.requests[c.id].status)
    case Decide(_) => Open(t.requests[c.id].status)
    case Settle(_) => c.key in t.balances
    case _ => true
  }

  predicate Owes(stage: Stage) {
    stage.CountPending? || stage.Settle? || (stage.Record? && !stage.verdict.Forward?)
  }

  ghost predicate AllBalanced(s: Race) {
    forall key :: Balanced(s, key)
  }

  // ---- One move on the books -------------------------------------------------------------------

  lemma {:induction false} ColumnWritten(calls: map<nat, Call>, call: nat, c: Call, owed: Call -> real)
    ensures MapSum(Column(calls[call := c], owed))
      == MapSum(Column(calls, owed)) - (if call in calls then owed(calls[call]) else 0.0) + owed(c)
  {
    MapSumUpdate(Column(calls, owed), call, owed(c));
    assert Column(calls[call := c], owed) == Column(calls, owed)[call := owed(c)];
  }

  lemma {:induction false} ColumnEnded(calls: map<nat, Call>, call: nat, owed: Call -> real)
    requires call in calls
    ensures MapSum(Column(calls - {call}, owed)) == MapSum(Column(calls, owed)) - owed(calls[call])
  {
    MapSumRemove(Column(calls, owed), call);
    assert Column(calls - {call}, owed) == Column(calls, owed) - {call};
  }

  lemma {:induction false} CallWritten(calls: map<nat, Call>, call: nat, c: Call, key: BalanceKey)
    ensures PendingOwed(calls[call := c], key) == PendingOwed(calls, key)
      - (if call in calls then OwedPending(calls[call], key) else 0.0) + OwedPending(c, key)
    ensures UsedOwed(calls[call := c], key) == UsedOwed(calls, key)
      - (if call in calls then OwedUsed(calls[call], key) else 0.0) + OwedUsed(c, key)
  {
    ColumnWritten(calls, call, c, c => OwedPending(c, key));
    ColumnWritten(calls, call, c, c => OwedUsed(c, key));
  }

  lemma {:induction false} CallEnded(calls: map<nat, Call>, call: nat, key: BalanceKey)
    requires call in calls
    ensures PendingOwed(calls - {call}, key) == PendingOwed(calls, key) - OwedPending(calls[call], key)
    ensures UsedOwed(calls - {call}, key) == UsedOwed(calls, key) - OwedUsed(calls[call], key)
  {
    ColumnEnded(calls, call, c => OwedPending(c, key));
    ColumnEnded(calls, call, c => OwedUsed(c, key));
  }

  lemma {:induction false} NothingOwed(key: BalanceKey)
    ensures PendingOwed(map[], key) == 0.0 && UsedOwed(map[], key) == 0.0
  {
    var pending, used: Call -> real := c => OwedPending(c, key), c => OwedUsed(c, key);
    assert Column(map[], pending) == map[] && Column(map[], used) == map[];
  }

  /** What a call owes after its next write: nothing once it has ended. */
  function OwedNext(c: Call, key: BalanceKey): (owed: (real, real)) {
    match NextStage(c.stage)
    case None => (0.0, 0.0)
    case Some(stage) => (OwedPending(c.(stage := stage), key), OwedUsed(c.(stage := stage), key))
  }

  lemma {:induction false} CallMoved(s: Race, call: nat, key: BalanceKey)
    requires Writes(s, call)
    ensures var c, calls := s.calls[call], Written(s, call).calls;
      PendingOwed(calls, key)
        == PendingOwed(s.calls, key) - OwedPending(c, key) + OwedNext(c, key).0
      && UsedOwed(calls, key)
        == UsedOwed(s.calls, key) - OwedUsed(c, key) + OwedNext(c, key).1
  {
    var c := s.calls[call];
    match NextStage(c.stage)
    case None => CallEnded(s.calls, call, key);
    case Some(stage) => CallWritten(s.calls, call, c.(stage := stage), key);
  }

  /** How a write moves a row, and the shares of its request. */
  lemma {:induction false} TablesMoved(t: LeaveTables, c: Call, key: BalanceKey)
    requires c.id in t.requests && LinkedTo(c, t.requests[c.id])
    ensures var after, r := Apply(t, c), t.requests[c.id];
      c.id in after.requests && after.requests == t.requests[c.id := after.requests[c.id]]
      && after.requests[c.id] == r.(status := after.requests[c.id].status)
      && (after.requests[c.id].status == r.status || c.stage.AskHR? || c.stage.Decide?)
  {
  }

  /** A write moves its row, with what is still owed to it, by the change in its request's shares if and
      only if it is sound; and no other row. */
  lemma {:induction false} SharesMovedIff(t: LeaveTables, c: Call, key: BalanceKey)
    requires c.id in t.requests && LinkedTo(c, t.requests[c.id]) && c.days > 0.0
    ensures var after, r := Apply(t, c), t.requests[c.id];
      (PendingOf(after, key) - PendingOf(t, key) + OwedNext(c, key).0 - OwedPending(c, key)
         == OpenShare(after.requests[c.id], key) - OpenShare(r, key)
       && UsedOf(after, key) - UsedOf(t, key) + OwedNext(c, key).1 - OwedUsed(c, key)
         == ApprovedShare(after.requests[c.id], key) - ApprovedShare(r, key))
      <==> key != c.key || SoundWrite(t, c)
  {
    match c.stage
    case CountPending(_) =>
    case AskManager(_) =>
    case AskHR =>
    case Decide(_) =>
    case Record(_) =>
    case Settle(_) =>
  }

  lemma {:induction false} WriteBalancedIff(s: Race, call: nat, key: BalanceKey)
    requires Linked(s) && Writes(s, call) && Balanced(s, key)
    ensures Balanced(Written(s, call), key) <==> s.calls[call].key != key || SoundWrite(s.t, s.calls[call])
  {
    var c := s.calls[call];
    var after := Apply(s.t, c);
    CallMoved(s, call, key);
    TablesMoved(s.t, c, key);
    OpenWritten(s.t.requests, c.id, after.requests[c.id], key);
    ApprovedWritten(s.t.requests, c.id, after.requests[c.id], key);
    SharesMovedIff(s.t, c, key);
  }

  /** A new request whose days are on their way to its row. */
  lemma {:induction false} OpensBalanced(s: Race, after: Race, call: nat, c: Call, r: Request, key: BalanceKey)
    requires Balanced(s, key) && c.id !in s.t.requests && call !in s.calls
    requires after.t.balances == s.t.balances && after.t.requests == s.t.requests[c.id := r]
    requires after.calls == s.calls[call := c]
    requires OwedPending(c, key) == OpenShare(r, key) && OwedUsed(c, key) == ApprovedShare(r, key)
    ensures Balanced(after, key)
  {
    OpenWritten(s.t.requests, c.id, r, key);
    ApprovedWritten(s.t.requests, c.id, r, key);
    CallWritten(s.calls, call, c, key);
  }

  lemma {:induction false} CreateStartsBalanced(s: Race, call: nat, ev: LeaveWorkflow.Event, key: BalanceKey)
    requires ev.CreateRequest? && ev.id !in s.t.requests && call !in s.calls && Balanced(s, key)
    ensures Balanced(Started(s, call, ev), key)
  {
    OpensBalanced(s, Started(s, call, ev), call, Creation(ev), Request(ev.key, ev.days, Pending), key);
  }

  lemma {:induction false} DecisionStartsBalanced(s: Race, call: nat, ev: LeaveWorkflow.Event, key: BalanceKey)
    requires Decides(ev) && VerdictOf(s.t, ev).Some? && call !in s.calls && Balanced(s, key)
    ensures Balanced(Started(s, call, ev), key)
  {
    CallWritten(s.calls, call, CallOf(s.t, ev.id, Decide(VerdictOf(s.t, ev).value)), key);
  }

  lemma {:induction false} SingleBalanced(s: Race, ev: LeaveWorkflow.Event, key: BalanceKey)
    requires Balanced(s, key)
    ensures Balanced(s.(t := Single(s.t, ev)), key)
  {
    var after := Single(s.t, ev);
    assert after.requests == s.t.requests;
    assert PendingOf(after, key) == PendingOf(s.t, key) && UsedOf(after, key) == UsedOf(s.t, key);
  }

  lemma {:induction false} StartBalanced(s: Race, call: nat, ev: LeaveWorkflow.Event, key: BalanceKey)
    requires call !in s.calls && Balanced(s, key)
    ensures Balanced(Started(s, call, ev), key)
  {
    if ev.CreateRequest? {
      if ev.id !in s.t.requests {
        CreateStartsBalanced(s, call, ev, key);
      }
    } else if Decides(ev) {
      if VerdictOf(s.t, ev).Some? {
        DecisionStartsBalanced(s, call, ev, key);
      }
    } else {
      SingleBalanced(s, ev, key);
    }
  }

  lemma {:induction false} OwesIff(c: Call)
    requires c.days > 0.0
    ensures (OwedPending(c, c.key) == 0.0 && OwedUsed(c, c.key) == 0.0) <==> !Owes(c.stage)
  {
  }

  lemma {:induction false} FailBalancedIff(s: Race, call: nat, key: BalanceKey)
    requires Linked(s) && call in s.calls && Balanced(s, key)
    ensures Balanced(Next(s, Fail(call)), key) <==> s.calls[call].key != key || !Owes(s.calls[call].stage)
  {
    OwesIff(s.calls[call]);
    CallEnded(s.calls, call, key);
  }

  lemma {:induction false} MoveBalanced(s: Race, m: Move, key: BalanceKey)
    requires Linked(s) && CountsDaysIn(m) && Balanced(s, key) && Sound(s, m)
    ensures Balanced(Next(s, m), key)
  {
    match m
    case Start(call, ev) =>
      if call !in s.calls {
        StartBalanced(s, call, ev, key);
      }
    case Write(call) =>
      if Writes(s, call) {
        WriteBalancedIff(s, call, key);
      }
    case Fail(call) =>
      if call in s.calls {
        FailBalancedIff(s, call, key);
      } else {
        assert s.calls - {call} == s.calls;
      }
  }

  lemma {:induction false} UnsoundUnbalances(s: Race, m: Move)
    requires Linked(s) && AllBalanced(s) && !Sound(s, m)
    ensures !AllBalanced(Next(s, m))
  {
    var key := s.calls[m.call].key;
    assert Balanced(s, key);
    if m.Write? {
      WriteBalancedIff(s, m.call, key);
    } else {
      FailBalancedIff(s, m.call, key);
    }
    assert !Balanced(Next(s, m), key);
  }

  /** From balanced books, a move leaves them so if and only if it is sound. */
  lemma {:induction false} AllBalancedIff(s: Race, m: Move)
    requires Linked(s) && CountsDaysIn(m) && AllBalanced(s)
    ensures AllBalanced(Next(s, m)) <==> Sound(s, m)
  {
    if Sound(s, m) {
      forall key
        ensures Balanced(Next(s, m), key)
      {
        MoveBalanced(s, m, key);
      }
    } else {
      UnsoundUnbalances(s, m);
    }
  }

  // ---- Whole interleavings ---------------------------------------------------------------------

  ghost predicate BalancedThroughout(moves: seq<Move>) {
    AllBalanced(Races(moves)[|moves|]) && (moves != [] ==> BalancedThroughout(moves[..|moves| - 1]))
  }

  ghost predicate SoundThroughout(moves: seq<Move>) {
    moves != [] ==>
      SoundThroughout(moves[..|moves| - 1]) && Sound(Races(moves)[|moves| - 1], moves[|moves| - 1])
  }

  lemma {:induction false} AlwaysLinked(moves: seq<Move>)
    requires forall i :: 0 <= i < |moves| ==> CountsDaysIn(moves[i])
    ensures Linked(Races(moves)[|moves|])
  {
    if moves != [] {
      var n := |moves| - 1;
      AlwaysLinked(moves[..n]);
      StepKeepsLinked(Races(moves[..n])[n], moves[n]);
    }
  }

  lemma {:induction false} QuietBalanced()
    ensures AllBalanced(QUIET)
  {
    forall key
      ensures Balanced(QUIET, key)
    {
      assert OpenColumn(map[], key) == map[] && ApprovedColumn(map[], key) == map[];
      NothingOwed(key);
    }
  }

  /** Along any interleaving of leave calls, wherever they fail: each row's pending and used days, with
      those still on their way, are at all times those of its open and its approved requests if and
      only if every status write finds its request open, every row write its row, and no call ends
      owing days. */
  lemma {:induction false} RacesBalanceIff(moves: seq<Move>)
    requires forall i :: 0 <= i < |moves| ==> CountsDaysIn(moves[i])
    ensures BalancedThroughout(moves) <==> SoundThroughout(moves)
  {
    if moves == [] {
      QuietBalanced();
    } else {
      var n := |moves| - 1;
      RacesBalanceIff(moves[..n]);
      AlwaysLinked(moves[..n]);
      if BalancedThroughout(moves[..n]) {
        AllBalancedIff(Races(moves[..n])[n], moves[n]);
      }
    }
  }

  /** So once no call is under way, the rows agree with the requests. */
  lemma {:induction false} QuietRowsAgree(moves: seq<Move>, key: BalanceKey)
    requires forall i :: 0 <= i < |moves| ==> CountsDaysIn(moves[i])
    requires SoundThroughout(moves) && Races(moves)[|moves|].calls == map[]
    ensures var t := Races(moves)[|moves|].t;
      PendingOf(t, key) == MapSum(OpenColumn(t.requests, key))
      && UsedOf(t, key) == MapSum(ApprovedColumn(t.requests, key))
  {
    RacesBalanceIff(moves);
    assert Balanced(Races(moves)[|moves|], key);
    NothingOwed(key);
  }

  // ---- The HR gate -----------------------------------------------------------------------------

  predicate AsksHR(m: Move) {
    m.Start? ==> PolicyAsksHR(m.ev)
  }

  predicate Grants(stage: Stage) {
    (stage.Decide? || stage.Record? || stage.Settle?) && stage.verdict.Grant?
  }

  /** Who grants is HR, or has not read that the request waits for HR; under a policy that asks for HR
      it is HR. */
  ghost predicate GrantsRightly(s: Race, always: bool) {
    forall call :: call in s.calls && Grants(s.calls[call].stage) ==>
      s.calls[call].stage.verdict.user.role == HRRole || (!always && s.calls[call].read != PendingHR)
  }

  lemma {:induction false} MoveGrantsRightly(s: Race, m: Move, always: bool)
    requires GrantsRightly(s, always) && (always ==> AsksHR(m))
    ensures GrantsRightly(Next(s, m), always)
  {
  }

  lemma {:induction false} AlwaysGrantsRightly(moves: seq<Move>, always: bool)
    requires always ==> forall i :: 0 <= i < |moves| ==> AsksHR(moves[i])
    ensures GrantsRightly(Races(moves)[|moves|], always)
  {
    if moves != [] {
      var n := |moves| - 1;
      AlwaysGrantsRightly(moves[..n], always);
      MoveGrantsRightly(Races(moves[..n])[n], moves[n], always);
    }
  }

  ghost predicate SkipsHR(s: Race, m: Move, id: nat) {
    && id in s.t.requests && s.t.requests[id].status == PendingHR
    && id in Next(s, m).t.requests && Next(s, m).t.requests[id].status == Approved
  }

  lemma {:induction false} SkipIsGranted(s: Race, m: Move, id: nat)
    requires GrantsRightly(s, false) && SkipsHR(s, m, id)
    ensures m.Write? && m.call in s.calls && s.calls[m.call].id == id && Grants(s.calls[m.call].stage)
    ensures s.calls[m.call].stage.verdict.user.role == HRRole || s.calls[m.call].read != PendingHR
  {
  }

  /** Under any policy, and on any interleaving: what takes a request that waits for HR to approved is an
      approval by HR, or one that read it before it came to wait for HR. */
  lemma {:induction false} SkipNeedsStaleRead(moves: seq<Move>, m: Move, id: nat)
    requires SkipsHR(Races(moves)[|moves|], m, id)
    ensures var calls := Races(moves)[|moves|].calls;
      m.Write? && m.call in calls && calls[m.call].id == id && Grants(calls[m.call].stage)
      && (calls[m.call].stage.verdict.user.role == HRRole || calls[m.call].read != PendingHR)
  {
    AlwaysGrantsRightly(moves, false);
    SkipIsGranted(Races(moves)[|moves|], m, id);
  }

  lemma {:induction false} GrowthIsGranted(s: Race, m: Move, key: BalanceKey)
    requires GrantsRightly(s, true) && UsedOf(Next(s, m).t, key) > UsedOf(s.t, key)
    ensures m.Write? && m.call in s.calls && s.calls[m.call].key == key && Grants(s.calls[m.call].stage)
    ensures s.calls[m.call].stage.verdict.user.role == HRRole
  {
  }

  /** If the policy asks for HR at each step, used days grow only by the writes of HR approvals, on any
      interleaving. */
  lemma {:induction false} UsedGrowsByHROnly(moves: seq<Move>, m: Move, key: BalanceKey)
    requires forall i :: 0 <= i < |moves| ==> AsksHR(moves[i])
    requires UsedOf(Next(Races(moves)[|moves|], m).t, key) > UsedOf(Races(moves)[|moves|].t, key)
    ensures var calls := Races(moves)[|moves|].calls;
      m.Write? && m.call in calls && calls[m.call].key == key && Grants(calls[m.call].stage)
      && calls[m.call].stage.verdict.user.role == HRRole
  {
    AlwaysGrantsRightly(moves, true);
    GrowthIsGranted(Races(moves)[|moves|], m, key);
  }

  predicate Records(c: Call, id: nat) {
    c.id == id && c.stage.Record? && c.stage.verdict.Grant?
  }

  ghost predicate EntryOnItsWay(s: Race, id: nat) {
    exists call :: call in s.calls && Records(s.calls[call], id)
  }

  /** Each approved request has its HR approval entry, or a call is about to write one. */
  ghost predicate Gate(s: Race) {
    forall id :: id in s.t.requests && s.t.requests[id].status == Approved ==>
      GrantedByHR(s.t, id) || EntryOnItsWay(s, id)
  }

  /** An approval that ends right before the only entry its approved request would have. */
  ghost predicate LosesOnlyEntry(s: Race, m: Move) {
    && m.Fail? && m.call in s.calls && s.calls[m.call].stage.Record?
    && s.calls[m.call].id in s.t.requests && s.t.requests[s.calls[m.call].id].status == Approved
    && !GrantedByHR(s.t, s.calls[m.call].id) && Records(s.calls[m.call], s.calls[m.call].id)
    && forall call :: call in s.calls && call != m.call ==> !Records(s.calls[call], s.calls[m.call].id)
  }

  lemma {:induction false} MoveKeepsEntries(s: Race, m: Move, id: nat)
    requires GrantedByHR(s.t, id)
    ensures GrantedByHR(Next(s, m).t, id)
  {
    var i :| 0 <= i < |s.t.approvals| && s.t.approvals[i].request == id
             && s.t.approvals[i].approver.role == HRRole && s.t.approvals[i].decision == Granted;
    assert Next(s, m).t.approvals[i] == s.t.approvals[i];
  }

  /** An entry on its way stays so, or is written, unless its call fails. */
  lemma {:induction false} MoveKeepsWay(s: Race, m: Move, id: nat)
    requires GrantsRightly(s, true) && id in s.t.requests && EntryOnItsWay(s, id)
    requires m.Fail? ==> exists call :: call in s.calls && call != m.call && Records(s.calls[call], id)
    ensures GrantedByHR(Next(s, m).t, id) || EntryOnItsWay(Next(s, m), id)
  {
    var call :| call in s.calls && Records(s.calls[call], id) && (m.Fail? ==> call != m.call);
    if m == Write(call) {
      var after := Next(s, m).t;
      assert after.approvals[|s.t.approvals|] == Approval(id, s.calls[call].stage.verdict.user, Granted);
    } else {
      assert call in Next(s, m).calls && Next(s, m).calls[call] == s.calls[call];
    }
  }

  /** Only a grant makes a request approved, and then writes its entry next. */
  lemma {:induction false} NewlyApproved(s: Race, m: Move, id: nat)
    requires id in Next(s, m).t.requests && Next(s, m).t.requests[id].status == Approved
    requires !(id in s.t.requests && s.t.requests[id].status == Approved)
    ensures EntryOnItsWay(Next(s, m), id)
  {
    assert m.Write? && Records(Next(s, m).calls[m.call], id);
  }

  lemma {:induction false} GateKept(s: Race, m: Move, id: nat)
    requires GrantsRightly(s, true) && Gate(s) && !LosesOnlyEntry(s, m)
    requires id in Next(s, m).t.requests && Next(s, m).t.requests[id].status == Approved
    ensures GrantedByHR(Next(s, m).t, id) || EntryOnItsWay(Next(s, m), id)
  {
    if !(id in s.t.requests && s.t.requests[id].status == Approved) {
      NewlyApproved(s, m, id);
    } else if GrantedByHR(s.t, id) {
      MoveKeepsEntries(s, m, id);
    } else {
      if m.Fail? && m.call !in s.calls {
        var call :| call in s.calls && Records(s.calls[call], id);
      }
      MoveKeepsWay(s, m, id);
    }
  }

  lemma {:induction false} LossBreaksGate(s: Race, m: Move)
    requires LosesOnlyEntry(s, m)
    ensures !Gate(Next(s, m))
  {
    var id := s.calls[m.call].id;
    assert Next(s, m).t == s.t;
    assert !EntryOnItsWay(Next(s, m), id);
  }

  lemma {:induction false} MoveGateIff(s: Race, m: Move)
    requires GrantsRightly(s, true) && Gate(s)
    ensures Gate(Next(s, m)) <==> !LosesOnlyEntry(s, m)
  {
    if LosesOnlyEntry(s, m) {
      LossBreaksGate(s, m);
    } else {
      forall id | id in Next(s, m).t.requests && Next(s, m).t.requests[id].status == Approved
        ensures GrantedByHR(Next(s, m).t, id) || EntryOnItsWay(Next(s, m), id)
      {
        GateKept(s, m, id);
      }
    }
  }

  ghost predicate GateHolds(moves: seq<Move>) {
    Gate(Races(moves)[|moves|]) && (moves != [] ==> GateHolds(moves[..|moves| - 1]))
  }

  ghost predicate NoEntryLostIn(moves: seq<Move>) {
    moves != [] ==>
      NoEntryLostIn(moves[..|moves| - 1]) && !LosesOnlyEntry(Races(moves)[|moves| - 1], moves[|moves| - 1])
  }

  /** If the policy asks for HR at each step, then along any interleaving each approved request has at
      all times an HR approval entry, or a call about to write it, if and only if no approval fails
      right before the only one. */
  lemma {:induction false} RaceGateIff(moves: seq<Move>)
    requires forall i :: 0 <= i < |moves| ==> AsksHR(moves[i])
    ensures GateHolds(moves) <==> NoEntryLostIn(moves)
  {
    if moves != [] {
      var n := |moves| - 1;
      RaceGateIff(moves[..n]);
      AlwaysGrantsRightly(moves[..n], true);
      if GateHolds(moves[..n]) {
        MoveGateIff(Races(moves[..n])[n], moves[n]);
      }
    }
  }

  /** The entry of an HR approval of the request. */
  predicate HREnters(s: Race, m: Move, id: nat) {
    m.Write? && Writes(s, m.call)
    && var c := s.calls[m.call];
       c.id == id && c.stage.Record? && (c.stage.verdict.Grant? || c.stage.verdict.Forward?)
       && c.stage.verdict.user.role == HRRole
  }

  lemma {:induction false} MoveEntersIff(s: Race, m: Move, id: nat)
    ensures GrantedByHR(Next(s, m).t, id) <==> GrantedByHR(s.t, id) || HREnters(s, m, id)
  {
    var after := Next(s, m).t;
    if GrantedByHR(s.t, id) {
      MoveKeepsEntries(s, m, id);
    } else if HREnters(s, m, id) {
      assert after.approvals[|s.t.approvals|] == Approval(id, s.calls[m.call].stage.verdict.user, Granted);
    } else {
      assert forall i :: 0 <= i < |s.t.approvals| ==> after.approvals[i] == s.t.approvals[i];
    }
  }

  /** Under any policy and on any interleaving, a request has an HR approval entry if and only if some HR
      approval of it came to write its entry. */
  lemma {:induction false} EntryIff(moves: seq<Move>, id: nat)
    ensures GrantedByHR(Races(moves)[|moves|].t, id)
      <==> exists i :: 0 <= i < |moves| && HREnters(Races(moves)[i], moves[i], id)
  {
    if moves != [] {
      var n := |moves| - 1;
      EntryIff(moves[..n], id);
      MoveEntersIff(Races(moves[..n])[n], moves[n], id);
    }
  }

  // ---- Interleavings that fall short -----------------------------------------------------------

  ghost predicate Reach(moves: seq<Move>, s: Race) {
    Races(moves)[|moves|] == s
  }

  lemma {:induction false} Do(s: Race, moves: seq<Move>, m: Move) returns (more: seq<Move>, after: Race)
    requires Reach(moves, s)
    ensures after == Next(s, m) && Reach(more, after)
  {
    more := moves + [m];
    assert more[..|moves|] == moves;
    after := Next(s, m);
  }

  /** A request that waits for its manager, or without one for HR. */
  lemma {:induction false} Requested(id: nat, key: BalanceKey, days: real, manager: Option<User>)
    returns (moves: seq<Move>, s: Race)
    ensures Reach(moves, s) && s.calls == map[] && s.t.balances == map[key := Balance(0.0, days, 0.0)]
    ensures s.t.requests == map[id := Request(key, days, if manager.Some? then Pending else PendingHR)]
  {
    moves, s := Do(QUIET, [], Start(0, CreateRequest(id, key, days, manager, 3)));
    assert s.calls == map[0 := Call(id, key, days, Pending, CountPending(manager))];
    moves, s := Do(s, moves, Write(0));
    moves, s := Do(s, moves, Write(0));
    assert s.calls == map[];
  }

  /** What an uninterrupted grant leaves; without a balance row, no days are moved. */
  function GrantedAtOnce(t: LeaveTables, c: Call, hr: User): LeaveTables
    requires c.id in t.requests
  {
    MoveToUsed(InsertApproval(SetStatus(t, c.id, Approved), c.id, hr, Granted), c.key, c.days)
  }

  lemma {:induction false} WritesThrice(s: Race, moves: seq<Move>, call: nat, c: Call, hr: User)
    returns (more: seq<Move>, after: Race)
    requires Reach(moves, s) && Writes(s, call) && s.calls[call] == c && c.stage == Decide(Grant(hr))
    ensures Reach(more, after) && after == Race(GrantedAtOnce(s.t, c, hr), s.calls - {call})
  {
    more, after := Do(s, moves, Write(call));
    more, after := Do(after, more, Write(call));
    more, after := Do(after, more, Write(call));
    assert after.calls == s.calls - {call};
  }

  /** A call reads, another runs from its read to its last write, and the first one has yet to write. */
  lemma {:induction false} Overtaken(
    s: Race, moves: seq<Move>, waiting: Call, id: nat, hr: User, look: Lookups)
    returns (more: seq<Move>, after: Race)
    requires Reach(moves, s) && s.calls == map[1 := waiting] && id in s.t.requests && hr.role == HRRole
    ensures Reach(more, after) && after.calls == map[1 := waiting]
    ensures after.t == GrantedAtOnce(s.t, CallOf(s.t, id, Decide(Grant(hr))), hr)
  {
    var c := CallOf(s.t, id, Decide(Grant(hr)));
    more, after := Do(s, moves, Start(2, ApproveRequest(id, hr, look, 3)));
    assert after.calls == map[1 := waiting, 2 := c] && after.t == s.t;
    more, after := WritesThrice(after, more, 2, c, hr);
    assert after.calls == map[1 := waiting];
  }

  /** A cancellation that has read a waiting request, an HR approval from start to end, and then the
      cancellation's writes: the request is cancelled, with days used and pending days below zero. */
  lemma {:induction false} CancelOvertaken(id: nat, key: BalanceKey, days: real, hr: User, look: Lookups)
    returns (moves: seq<Move>)
    requires hr.role == HRRole
    ensures var s := Races(moves)[|moves|];
      s.calls == map[] && s.t.requests == map[id := Request(key, days, Cancelled)]
      && s.t.balances == map[key := Balance(0.0, -days, days)]
  {
    var s;
    moves, s := Requested(id, key, days, None);
    var waiting := CallOf(s.t, id, Decide(Withdraw));
    moves, s := Do(s, moves, Start(1, CancelRequest(id, 2)));
    assert s.calls == map[1 := waiting];
    moves, s := Overtaken(s, moves, waiting, id, hr, look);
    moves, s := WritesTwice(s, moves, waiting);
  }

  lemma {:induction false} WritesTwice(s: Race, moves: seq<Move>, c: Call) returns (more: seq<Move>, after: Race)
    requires Reach(moves, s) && s.calls == map[1 := c] && c.id in s.t.requests && c.stage == Decide(Withdraw)
    ensures Reach(more, after) && after.calls == map[]
    ensures after.t == DropPending(SetStatus(s.t, c.id, Cancelled), c.key, c.days)
  {
    more, after := Do(s, moves, Write(1));
    assert after.calls == map[1 := c.(stage := Settle(Withdraw))];
    more, after := Do(after, more, Write(1));
    assert after.calls == map[];
  }

  /** An approval by somebody else than HR that has read a pending request while its policy lookup
      failed, another one that sends the request on to HR, and then the first one's write: a request that
      waits for HR is approved without it. */
  lemma {:induction false} HRSkipped(id: nat, key: BalanceKey, days: real, manager: User, a: User, b: User)
    returns (moves: seq<Move>)
    requires a.role == b.role == OtherRole
    ensures var s := Races(moves)[|moves|];
      SkipsHR(s, Write(1), id) && 1 in s.calls && s.calls[1].stage == Decide(Grant(b))
  {
    var s;
    moves, s := Requested(id, key, days, Some(manager));
    var grant, forward := CallOf(s.t, id, Decide(Grant(b))), CallOf(s.t, id, Decide(Forward(a)));
    moves, s := Do(s, moves, Start(1, ApproveRequest(id, b, Lookups(None, None, None), 3)));
    assert s.calls == map[1 := grant];
    moves, s := Do(s, moves, Start(2, ApproveRequest(id, a, Lookups(Some(true), None, None), 3)));
    assert s.calls == map[1 := grant, 2 := forward];
    moves, s := Do(s, moves, Write(2));
  }

  /** A request approved before its days are counted: they stay pending, and none are used. */
  lemma {:induction false} ApprovedBeforeCounted(
    id: nat, key: BalanceKey, days: real, manager: User, hr: User, look: Lookups)
    returns (moves: seq<Move>)
    requires hr.role == HRRole
    ensures var s := Races(moves)[|moves|];
      s.calls == map[] && s.t.requests == map[id := Request(key, days, Approved)]
      && s.t.balances == map[key := Balance(0.0, days, 0.0)]
  {
    var s;
    var waiting := Call(id, key, days, Pending, CountPending(Some(manager)));
    moves, s := Do(QUIET, [], Start(1, CreateRequest(id, key, days, Some(manager), 3)));
    assert s.calls == map[1 := waiting];
    moves, s := Overtaken(s, moves, waiting, id, hr, look);
    moves, s := Do(s, moves, Write(1));
    assert s.calls == map[1 := waiting.(stage := AskManager(manager))];
    moves, s := Do(s, moves, Write(1));
    assert s.calls == map[];
  }
}
