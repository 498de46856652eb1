/** When the balance rows agree with the leave requests: which calls, complete or cut off, keep them in
    agreement, and what holds of the rows and the usage report along whole runs. */
module LeaveBalances {
  import opened Options
  import opened Sums
  import opened LeaveAccrual
  import opened LeaveWorkflow

  // ---- Balances agree with requests ------------------------------------------------------------

  function OpenShare(r: Request, key: BalanceKey): real {
    if r.key == key && Open(r.status) then r.days else 0.0
  }

  function ApprovedShare(r: Request, key: BalanceKey): real {
    if r.key == key && r.status == Approved then r.days else 0.0
  }

  ghost function OpenColumn(requests: map<nat, Request>, key: BalanceKey): map<nat, real> {
    map id | id in requests :: OpenShare(requests[id], key)
  }

  ghost function ApprovedColumn(requests: map<nat, Request>, key: BalanceKey): map<nat, real> {
    map id | id in requests :: ApprovedShare(requests[id], key)
  }

  function PendingOf(t: LeaveTables, key: BalanceKey): real {
    if key in t.balances then t.balances[key].pending else 0.0
  }

  function UsedOf(t: LeaveTables, key: BalanceKey): real {
    if key in t.balances then t.balances[key].used else 0.0
  }

  /** The row's pending days are those of the open requests, its used days those of the approved ones. */
  ghost predicate Agrees(t: LeaveTables, key: BalanceKey) {
    && PendingOf(t, key) == MapSum(OpenColumn(t.requests, key))
    && UsedOf(t, key) == MapSum(ApprovedColumn(t.requests, key))
    && (key !in t.balances ==> forall id :: id in t.requests ==> t.requests[id].key != key)
  }

  function ShareBefore(requests: map<nat, Request>, id: nat, key: BalanceKey): (shares: (real, real)) {
    if id in requests then (OpenShare(requests[id], key), ApprovedShare(requests[id], key)) else (0.0, 0.0)
  }

  lemma OpenWritten(requests: map<nat, Request>, id: nat, r: Request, key: BalanceKey)
    ensures MapSum(OpenColumn(requests[id := r], key))
      == MapSum(OpenColumn(requests, key)) - ShareBefore(requests, id, key).0 + OpenShare(r, key)
  {
    MapSumUpdate(OpenColumn(requests, key), id, OpenShare(r, key));
    assert OpenColumn(requests[id := r], key) == OpenColumn(requests, key)[id := OpenShare(r, key)];
  }

  lemma ApprovedWritten(requests: map<nat, Request>, id: nat, r: Request, key: BalanceKey)
    ensures MapSum(ApprovedColumn(requests[id := r], key))
      == MapSum(ApprovedColumn(requests, key)) - ShareBefore(requests, id, key).1 + ApprovedShare(r, key)
  {
    MapSumUpdate(ApprovedColumn(requests, key), id, ApprovedShare(r, key));
    assert ApprovedColumn(requests[id := r], key) == ApprovedColumn(requests, key)[id := ApprovedShare(r, key)];
  }

  /** Writing one request keeps its row right exactly when the row moves by the change in shares. */
  lemma WrittenAgreesIff(t: LeaveTables, after: LeaveTables, id: nat, r: Request, key: BalanceKey)
    requires Agrees(t, key) && after.requests == t.requests[id := r]
    ensures key in after.balances && Moved(t, after, id, r, key) ==> Agrees(after, key)
    ensures Agrees(after, key) ==> Moved(t, after, id, r, key)
  {
    OpenWritten(t.requests, id, r, key);
    ApprovedWritten(t.requests, id, r, key);
  }

  predicate Moved(t: LeaveTables, after: LeaveTables, id: nat, r: Request, key: BalanceKey) {
    && PendingOf(after, key) - PendingOf(t, key) == OpenShare(r, key) - ShareBefore(t.requests, id, key).0
    && UsedOf(after, key) - UsedOf(t, key) == ApprovedShare(r, key) - ShareBefore(t.requests, id, key).1
  }

  /** A row that is not written, for a request of another row. */
  lemma OtherAgrees(t: LeaveTables, after: LeaveTables, id: nat, r: Request, key: BalanceKey)
    requires Agrees(t, key) && after.requests == t.requests[id := r] && r.key != key
    requires id in t.requests ==> t.requests[id].key != key
    requires Lookup(after.balances, key) == Lookup(t.balances, key)
    ensures Agrees(after, key)
  {
    OpenWritten(t.requests, id, r, key);
    ApprovedWritten(t.requests, id, r, key);
  }

  // ---- Which calls keep them in agreement ------------------------------------------------------

  /** The calls that keep their row in agreement, whether complete or cut off: a request is counted
      with its row or not at all, and a decision moves days exactly as its request's status moves. */
  predicate Settles(t: LeaveTables, ev: Event) {
    match ev
    case CreateRequest(id, _, _, _, writes) => id in t.requests || writes != 1
    case ApproveRequest(id, user, look, writes) =>
      TurnedDown(t, ev) || writes == 0 || ApproveSettles(t.requests[id].status, NextStatus(user, look), writes)
    case RejectRequest(id, _, _, writes) =>
      TurnedDown(t, ev) || writes == 0 || RejectSettles(t.requests[id].status, writes)
    case CancelRequest(id, writes) =>
      TurnedDown(t, ev) || writes == 0 || (Open(t.requests[id].status) <==> writes >= 2)
    case _ => true
  }

  /** An open request: it only goes on to HR, or its days are moved. An approved one: it stays that way. */
  predicate ApproveSettles(status: Status, next: Status, writes: nat) {
    if Open(status) then next == PendingHR || writes >= 3 else status == next == Approved && writes < 3
  }

  predicate RejectSettles(status: Status, writes: nat) {
    if Open(status) then writes >= 3 else status != Approved && writes < 3
  }

  /** A decision writes at most one status and its request's row. */
  lemma DecisionWrites(t: LeaveTables, ev: Event)
    requires Decides(ev) && !TurnedDown(t, ev) && t.requests[ev.id].key in t.balances
    ensures var r, after := t.requests[ev.id], Step(t, ev).0;
      var s := after.requests[ev.id];
      after.requests == t.requests[ev.id := s] && s == r.(status := s.status)
      && r.key in after.balances && after.balances == t.balances[r.key := after.balances[r.key]]
  {
  }

  lemma DecisionMovesIff(t: LeaveTables, ev: Event)
    requires Decides(ev) && !TurnedDown(t, ev) && t.requests[ev.id].key in t.balances
    ensures var r, after := t.requests[ev.id], Step(t, ev).0;
      (Settles(t, ev) ==> Moved(t, after, ev.id, after.requests[ev.id], r.key))
      && (r.days != 0.0 && Moved(t, after, ev.id, after.requests[ev.id], r.key) ==> Settles(t, ev))
  {
  }

  /** An approve, reject or cancel keeps its request's row right if and only if it settles; any
      request with days to its name will do. */
  lemma DecisionAgreesIff(t: LeaveTables, ev: Event)
    requires Decides(ev) && ev.id in t.requests && t.requests[ev.id].days != 0.0
    requires Agrees(t, t.requests[ev.id].key)
    ensures Agrees(Step(t, ev).0, t.requests[ev.id].key) <==> Settles(t, ev)
  {
    if !TurnedDown(t, ev) {
      var after := Step(t, ev).0;
      DecisionWrites(t, ev);
      DecisionMovesIff(t, ev);
      WrittenAgreesIff(t, after, ev.id, after.requests[ev.id], t.requests[ev.id].key);
    }
  }

  /** A create writes one open request, and unless it was cut off before, adds its days to the row. */
  lemma CreateWrites(t: LeaveTables, ev: Event)
    requires ev.CreateRequest? && ev.id !in t.requests && ev.writes > 0
    ensures var after := Step(t, ev).0;
      var r := after.requests[ev.id];
      after.requests == t.requests[ev.id := r] && r.key == ev.key && r.days == ev.days && Open(r.status)
      && (if ev.writes == 1 then after.balances == t.balances
          else ev.key in after.balances && after.balances == t.balances[ev.key := after.balances[ev.key]])
      && PendingOf(after, ev.key) == PendingOf(t, ev.key) + (if ev.writes == 1 then 0.0 else ev.days)
      && UsedOf(after, ev.key) == UsedOf(t, ev.key)
  {
  }

  lemma CreateAgreesIfOn(t: LeaveTables, after: LeaveTables, id: nat, r: Request, days: real)
    requires Agrees(t, r.key) && id !in t.requests && after.requests == t.requests[id := r]
    requires Open(r.status) && r.days != 0.0 && (days == r.days ==> r.key in after.balances)
    requires PendingOf(after, r.key) == PendingOf(t, r.key) + days && UsedOf(after, r.key) == UsedOf(t, r.key)
    ensures Agrees(after, r.key) <==> days == r.days
  {
    WrittenAgreesIff(t, after, id, r, r.key);
  }

  /** A create keeps its row right unless it was cut off between the request and its pending days. */
  lemma CreateAgreesIff(t: LeaveTables, ev: Event)
    requires ev.CreateRequest? && ev.days != 0.0 && Agrees(t, ev.key)
    ensures Agrees(Step(t, ev).0, ev.key) <==> Settles(t, ev)
  {
    if ev.id !in t.requests && ev.writes > 0 {
      var after := Step(t, ev).0;
      CreateWrites(t, ev);
      CreateAgreesIfOn(t, after, ev.id, after.requests[ev.id], if ev.writes == 1 then 0.0 else ev.days);
    }
  }

  lemma DecisionAgrees(t: LeaveTables, ev: Event, k: BalanceKey)
    requires Decides(ev) && !TurnedDown(t, ev) && Settles(t, ev)
    requires Agrees(t, k) && Agrees(t, t.requests[ev.id].key)
    ensures Agrees(Step(t, ev).0, k)
  {
    var r, after := t.requests[ev.id], Step(t, ev).0;
    DecisionWrites(t, ev);
    DecisionMovesIff(t, ev);
    if r.key == k {
      WrittenAgreesIff(t, after, ev.id, after.requests[ev.id], k);
    } else {
      OtherAgrees(t, after, ev.id, after.requests[ev.id], k);
    }
  }

  lemma CreateAgrees(t: LeaveTables, ev: Event, k: BalanceKey)
    requires ev.CreateRequest? && ev.id !in t.requests && ev.writes >= 2 && Agrees(t, k)
    ensures Agrees(Step(t, ev).0, k)
  {
    CreateWrites(t, ev);
    WrittenElsewhere(t, Step(t, ev).0, ev.id, k);
  }

  /** A new open request, with its days added to its row, keeps every row right. */
  lemma WrittenElsewhere(t: LeaveTables, after: LeaveTables, id: nat, k: BalanceKey)
    requires Agrees(t, k) && id !in t.requests && id in after.requests
    requires after.requests == t.requests[id := after.requests[id]] && Open(after.requests[id].status)
    requires var key := after.requests[id].key;
      key in after.balances && after.balances == t.balances[key := after.balances[key]]
      && PendingOf(after, key) == PendingOf(t, key) + after.requests[id].days && UsedOf(after, key) == UsedOf(t, key)
    ensures Agrees(after, k)
  {
    if after.requests[id].key == k {
      WrittenAgreesIff(t, after, id, after.requests[id], k);
    } else {
      OtherAgrees(t, after, id, after.requests[id], k);
    }
  }

  lemma StepAgrees(t: LeaveTables, ev: Event, k: BalanceKey)
    requires Settles(t, ev) && AllAgree(t)
    ensures Agrees(Step(t, ev).0, k)
  {
    assert Agrees(t, k);
    match ev
    case CreateRequest(id, _, _, _, writes) =>
      if id !in t.requests && writes > 0 {
        CreateAgrees(t, ev, k);
      }
    case AdjustBalance(_, _) =>
    case AccrualUpsert(_, _, _) =>
    case _ =>
      if !TurnedDown(t, ev) {
        DecisionAgrees(t, ev, k);
      }
  }

  ghost predicate AllAgree(t: LeaveTables) {
    forall key :: Agrees(t, key)
  }

  lemma StepAllAgree(t: LeaveTables, ev: Event)
    requires Settles(t, ev) && AllAgree(t)
    ensures AllAgree(Step(t, ev).0)
  {
    forall key
      ensures Agrees(Step(t, ev).0, key)
    {
      StepAgrees(t, ev, key);
    }
  }

  predicate CountsDays(ev: Event) {
    ev.CreateRequest? ==> ev.days > 0.0
  }

  ghost predicate HasDays(t: LeaveTables) {
    forall id :: id in t.requests ==> t.requests[id].days > 0.0
  }

  lemma StepKeepsDays(t: LeaveTables, ev: Event)
    requires HasDays(t) && CountsDays(ev)
    ensures HasDays(Step(t, ev).0)
  {
  }

  /** From rows in agreement, a call leaves them so if and only if it settles. */
  lemma AllAgreeIff(t: LeaveTables, ev: Event)
    requires AllAgree(t) && HasDays(t) && CountsDays(ev)
    ensures AllAgree(Step(t, ev).0) <==> Settles(t, ev)
  {
    if Settles(t, ev) {
      StepAllAgree(t, ev);
    } else if ev.CreateRequest? {
      CreateAgreesIff(t, ev);
      assert !Agrees(Step(t, ev).0, ev.key);
    } else {
      DecisionAgreesIff(t, ev);
      assert !Agrees(Step(t, ev).0, t.requests[ev.id].key);
    }
  }

  ghost predicate Settled(events: seq<Event>) {
    forall i :: 0 <= i < |events| ==> Settles(States(events)[i], events[i])
  }

  ghost predicate AgreeThroughout(events: seq<Event>) {
    forall i :: 0 <= i <= |events| ==> AllAgree(States(events)[i])
  }

  lemma EmptyAgrees()
    ensures AllAgree(EMPTY)
  {
  }

  lemma {:induction false} DaysStay(events: seq<Event>)
    requires forall i :: 0 <= i < |events| ==> CountsDays(events[i])
    ensures HasDays(States(events)[|events|])
  {
    if events != [] {
      var n := |events| - 1;
      DaysStay(events[..n]);
      StepKeepsDays(States(events[..n])[n], events[n]);
    }
  }

  /** Along a run, each row's pending and used days are at all times those of its open and of its
      approved requests if and only if every call settles, through any accruals and adjustments. */
  lemma {:induction false} BalancesAgreeIff(events: seq<Event>)
    requires forall i :: 0 <= i < |events| ==> CountsDays(events[i])
    ensures AgreeThroughout(events) <==> Settled(events)
  {
    if events == [] {
      EmptyAgrees();
    } else {
      var n := |events| - 1;
      BalancesAgreeIff(events[..n]);
      DaysStay(events[..n]);
      AgreeOneMore(events);
      if AgreeThroughout(events[..n]) {
        AllAgreeIff(States(events[..n])[n], events[n]);
      }
    }
  }

  lemma AgreeOneMore(events: seq<Event>)
    requires events != []
    ensures AgreeThroughout(events)
      <==> AgreeThroughout(events[..|events| - 1]) && AllAgree(States(events)[|events|])
  {
    var n := |events| - 1;
    if AgreeThroughout(events) {
      forall i | 0 <= i <= n
        ensures AllAgree(States(events[..n])[i])
      {
        assert AllAgree(States(events)[i]);
      }
    }
  }

  /** So they do whenever all calls settle, requests without days included. */
  lemma {:induction false} BalancesAgree(events: seq<Event>)
    requires Settled(events)
    ensures AgreeThroughout(events)
  {
    if events == [] {
      EmptyAgrees();
    } else {
      var n := |events| - 1;
      BalancesAgree(events[..n]);
      StepAllAgree(States(events[..n])[n], events[n]);
    }
  }

  // ---- Interrupted calls -----------------------------------------------------------------------

  /** Used days never exceed the approved requests' days. */
  ghost predicate UsedBacked(t: LeaveTables, key: BalanceKey) {
    && UsedOf(t, key) <= MapSum(ApprovedColumn(t.requests, key))
    && forall id :: id in t.requests ==> t.requests[id].days >= 0.0
  }

  /** The guard the calls themselves lack: the request decided on is still open. */
  predicate DecidesOpen(t: LeaveTables, ev: Event) {
    Decides(ev) && !TurnedDown(t, ev) ==> Open(t.requests[ev.id].status)
  }

  /** Writing one request keeps used days backed if they grow by no more than its approved share. */
  lemma WrittenKeepsBacked(t: LeaveTables, after: LeaveTables, id: nat, r: Request, key: BalanceKey)
    requires UsedBacked(t, key) && after.requests == t.requests[id := r] && r.days >= 0.0
    requires UsedOf(after, key) - UsedOf(t, key) <= ApprovedShare(r, key) - ShareBefore(t.requests, id, key).1
    ensures UsedBacked(after, key)
  {
    ApprovedWritten(t.requests, id, r, key);
  }

  lemma CreateKeepsBacked(
    t: LeaveTables, id: nat, k: BalanceKey, days: real, manager: Option<User>, writes: nat, key: BalanceKey)
    requires UsedBacked(t, key) && id !in t.requests && days >= 0.0
    ensures UsedBacked(Create(t, id, k, days, manager, writes).0, key)
  {
    if writes > 0 {
      var after := Create(t, id, k, days, manager, writes).0;
      WrittenKeepsBacked(t, after, id, after.requests[id], key);
    }
  }

  lemma ApproveKeepsBacked(t: LeaveTables, id: nat, user: User, look: Lookups, writes: nat, key: BalanceKey)
    requires UsedBacked(t, key) && id in t.requests && Open(t.requests[id].status)
    ensures UsedBacked(Approve(t, id, user, look, writes).0, key)
  {
    if Refusal(t, id, user, look).None? && writes > 0 {
      var r := t.requests[id].(status := NextStatus(user, look));
      WrittenKeepsBacked(t, Approve(t, id, user, look, writes).0, id, r, key);
    }
  }

  lemma RejectKeepsBacked(t: LeaveTables, id: nat, user: User, look: Lookups, writes: nat, key: BalanceKey)
    requires UsedBacked(t, key) && id in t.requests && Open(t.requests[id].status)
    ensures UsedBacked(Reject(t, id, user, look, writes).0, key)
  {
    if !NotTheManager(user, look) && writes > 0 {
      WrittenKeepsBacked(t, Reject(t, id, user, look, writes).0, id, t.requests[id].(status := Rejected), key);
    }
  }

  lemma CancelKeepsBacked(t: LeaveTables, id: nat, writes: nat, key: BalanceKey)
    requires UsedBacked(t, key) && id in t.requests && Open(t.requests[id].status)
    ensures UsedBacked(Cancel(t, id, writes).0, key)
  {
    if writes > 0 {
      WrittenKeepsBacked(t, Cancel(t, id, writes).0, id, t.requests[id].(status := Cancelled), key);
    }
  }

  lemma StepKeepsBacked(t: LeaveTables, ev: Event, key: BalanceKey)
    requires UsedBacked(t, key) && (ev.CreateRequest? ==> ev.days >= 0.0) && DecidesOpen(t, ev)
    ensures UsedBacked(Step(t, ev).0, key)
  {
    match ev
    case CreateRequest(id, k, days, manager, writes) =>
      if id !in t.requests {
        CreateKeepsBacked(t, id, k, days, manager, writes, key);
      }
    case ApproveRequest(id, user, look, writes) =>
      if !TurnedDown(t, ev) {
        ApproveKeepsBacked(t, id, user, look, writes, key);
      }
    case RejectRequest(id, user, look, writes) =>
      if !TurnedDown(t, ev) {
        RejectKeepsBacked(t, id, user, look, writes, key);
      }
    case CancelRequest(id, writes) =>
      if !TurnedDown(t, ev) {
        CancelKeepsBacked(t, id, writes, key);
      }
    case AdjustBalance(_, _) =>
    case AccrualUpsert(_, _, _) =>
  }

  /** Calls cut off at any write leave used days short of the approved requests, never beyond them, as
      long as only open requests are decided. */
  lemma {:induction false} UsedStaysBacked(events: seq<Event>, key: BalanceKey)
    requires forall i :: 0 <= i < |events| && events[i].CreateRequest? ==> events[i].days >= 0.0
    requires forall i :: 0 <= i < |events| ==> DecidesOpen(States(events)[i], events[i])
    ensures UsedBacked(States(events)[|events|], key)
  {
    if events == [] {
      assert ApprovedColumn(map[], key) == map[];
    } else {
      var n := |events| - 1;
      UsedStaysBacked(events[..n], key);
      StepKeepsBacked(States(events[..n])[n], events[n], key);
    }
  }

  // ---- The usage report ------------------------------------------------------------------------

  function TypeShare(r: Request, leaveType: string): real {
    if r.key.leaveType == leaveType && r.status == Approved then r.days else 0.0
  }

  ghost function TypeColumn(requests: map<nat, Request>, leaveType: string): map<nat, real> {
    map id | id in requests :: TypeShare(requests[id], leaveType)
  }

  function UsedShare(key: BalanceKey, b: Balance, leaveType: string): real {
    if key.leaveType == leaveType then b.used else 0.0
  }

  ghost function UsedColumn(balances: map<BalanceKey, Balance>, leaveType: string): map<BalanceKey, real> {
    map key | key in balances :: UsedShare(key, balances[key], leaveType)
  }

  /** ReportUsage: approved days of a leave type, summed over the requests. */
  ghost function ReportUsage(requests: map<nat, Request>, leaveType: string): real {
    MapSum(TypeColumn(requests, leaveType))
  }

  /** Used days of a leave type, summed over the employees' balance rows. */
  ghost function TotalUsed(balances: map<BalanceKey, Balance>, leaveType: string): real {
    MapSum(UsedColumn(balances, leaveType))
  }

  lemma UsageWritten(requests: map<nat, Request>, id: nat, r: Request, leaveType: string)
    ensures ReportUsage(requests[id := r], leaveType)
      == ReportUsage(requests, leaveType) - (if id in requests then TypeShare(requests[id], leaveType) else 0.0)
         + TypeShare(r, leaveType)
  {
    MapSumUpdate(TypeColumn(requests, leaveType), id, TypeShare(r, leaveType));
    assert TypeColumn(requests[id := r], leaveType) == TypeColumn(requests, leaveType)[id := TypeShare(r, leaveType)];
  }

  lemma RowWritten(balances: map<BalanceKey, Balance>, key: BalanceKey, b: Balance, leaveType: string)
    ensures TotalUsed(balances[key := b], leaveType)
      == TotalUsed(balances, leaveType) - (if key in balances then UsedShare(key, balances[key], leaveType) else 0.0)
         + UsedShare(key, b, leaveType)
  {
    MapSumUpdate(UsedColumn(balances, leaveType), key, UsedShare(key, b, leaveType));
    assert UsedColumn(balances[key := b], leaveType)
      == UsedColumn(balances, leaveType)[key := UsedShare(key, b, leaveType)];
  }

  ghost predicate UsageAgrees(t: LeaveTables, leaveType: string) {
    && ReportUsage(t.requests, leaveType) == TotalUsed(t.balances, leaveType)
    && forall id :: id in t.requests ==> t.requests[id].key in t.balances
  }

  lemma StepUsageAgrees(t: LeaveTables, ev: Event, leaveType: string)
    requires UsageAgrees(t, leaveType) && Settles(t, ev)
    ensures UsageAgrees(Step(t, ev).0, leaveType)
  {
    var after := Step(t, ev).0;
    match ev
    case AdjustBalance(key, _) => RowWritten(t.balances, key, after.balances[key], leaveType);
    case AccrualUpsert(key, _, _) => RowWritten(t.balances, key, after.balances[key], leaveType);
    case CreateRequest(id, key, _, _, writes) =>
      if id !in t.requests && writes > 0 {
        CreateWrites(t, ev);
        UsageWritten(t.requests, id, after.requests[id], leaveType);
        RowWritten(t.balances, key, after.balances[key], leaveType);
      }
    case _ =>
      if !TurnedDown(t, ev) {
        DecisionUsageAgrees(t, ev, leaveType);
      }
  }

  lemma DecisionUsageAgrees(t: LeaveTables, ev: Event, leaveType: string)
    requires Decides(ev) && !TurnedDown(t, ev) && UsageAgrees(t, leaveType) && Settles(t, ev)
    ensures UsageAgrees(Step(t, ev).0, leaveType)
  {
    var after := Step(t, ev).0;
    var key := t.requests[ev.id].key;
    DecisionWrites(t, ev);
    DecisionMovesIff(t, ev);
    UsageWritten(t.requests, ev.id, after.requests[ev.id], leaveType);
    RowWritten(t.balances, key, after.balances[key], leaveType);
  }

  /** ...and the usage report of each leave type equals the used days of its balance rows. */
  lemma {:induction false} UsageReportAgrees(events: seq<Event>, leaveType: string)
    requires Settled(events)
    ensures UsageAgrees(States(events)[|events|], leaveType)
  {
    if events == [] {
      assert TypeColumn(map[], leaveType) == map[] && UsedColumn(map[], leaveType) == map[];
    } else {
      var n := |events| - 1;
      UsageReportAgrees(events[..n], leaveType);
      StepUsageAgrees(States(events[..n])[n], events[n], leaveType);
    }
  }
}
