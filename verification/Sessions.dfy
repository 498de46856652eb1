/** Login sessions whose token is rotated by refreshes. A refresh is a check and a rotation with
    anything in between, so every interleaving of the single statements is considered.
    Token hashes stand for the tokens; a new token has never been issued before. */
module Sessions {
  import opened Options

  type Time = int

  datatype Row = Row(user: string, token: nat, expires: Time, revoked: bool)

  /** A refresh that has passed its check. */
  datatype Refresh = Refresh(user: string, token: nat)

  /** The session rows by login, and the handlers between check and rotation. `lineage` records for
      which login each token was issued; the code keeps no such record. */
  datatype State = State(rows: map<nat, Row>, checked: map<nat, Refresh>, lineage: map<nat, nat>, now: Time)

  datatype Event =
    | Login(id: nat, user: string, token: nat, expires: Time)
    | RefreshCheck(handler: nat, user: string, token: nat)
    | RefreshRotate(handler: nat, newToken: nat, expires: Time)
    | Revoke(user: string, token: nat)
    | Tick(now: Time)

  const START := State(map[], map[], map[], 0)

  predicate Holds(row: Row, user: string, token: nat) {
    row.user == user && row.token == token
  }

  predicate Live(row: Row, now: Time) {
    row.expires > now && !row.revoked
  }

  /** The count query: some row of the user holds the token and is live. */
  predicate SessionValid(s: State, user: string, token: nat) {
    exists id :: id in s.rows && Holds(s.rows[id], user, token) && Live(s.rows[id], s.now)
  }

  /** RotateSession: every row holding the old token gets the new one, live or not. */
  function RotateRows(rows: map<nat, Row>, user: string, token: nat, newToken: nat, expires: Time): map<nat, Row> {
    map id | id in rows ::
      if Holds(rows[id], user, token) then rows[id].(token := newToken, expires := expires) else rows[id]
  }

  function RevokeRows(rows: map<nat, Row>, user: string, token: nat): map<nat, Row> {
    map id | id in rows :: if Holds(rows[id], user, token) then rows[id].(revoked := true) else rows[id]
  }

  ghost function Step(s: State, ev: Event): State {
    match ev
    case Login(id, user, token, expires) =>
      s.(rows := s.rows[id := Row(user, token, expires, false)], lineage := s.lineage[token := id])
    case RefreshCheck(handler, user, token) =>
      if SessionValid(s, user, token)
      then s.(checked := s.checked[handler := Refresh(user, token)])
      else s
    case RefreshRotate(handler, newToken, expires) =>
      if handler !in s.checked then s
      else
        var r := s.checked[handler];
        s.(rows := RotateRows(s.rows, r.user, r.token, newToken, expires),
           checked := s.checked - {handler},
           lineage := if r.token in s.lineage then s.lineage[newToken := s.lineage[r.token]] else s.lineage)
    case Revoke(user, token) => s.(rows := RevokeRows(s.rows, user, token))
    case Tick(now) => if now >= s.now then s.(now := now) else s
  }

  /** New rows and new tokens are new. */
  ghost predicate Fresh(s: State, ev: Event) {
    match ev
    case Login(id, _, token, _) => id !in s.rows && token !in s.lineage
    case RefreshRotate(_, newToken, _) => newToken !in s.lineage
    case _ => true
  }

  /** The state before each step of a run, and after the last. */
  ghost function States(events: seq<Event>): (states: seq<State>)
    ensures |states| == |events| + 1
  {
    if events == [] then [START]
    else
      var n := |events| - 1;
      var before := States(events[..n]);
      before + [Step(before[n], events[n])]
  }

  ghost predicate Trace(events: seq<Event>) {
    forall i :: 0 <= i < |events| ==> Fresh(States(events)[i], events[i])
  }

  /** A row holds a token issued for its own login; checked tokens have been issued, and to a login. */
  ghost predicate Inv(s: State) {
    && (forall id :: id in s.rows ==> Lookup(s.lineage, s.rows[id].token) == Some(id))
    && (forall h :: h in s.checked ==> s.checked[h].token in s.lineage)
    && (forall t :: t in s.lineage ==> s.lineage[t] in s.rows)
  }

  lemma StepKeepsInv(s: State, ev: Event)
    requires Inv(s) && Fresh(s, ev)
    ensures Inv(Step(s, ev))
  {
  }

  lemma {:induction false} NextState(events: seq<Event>, i: nat)
    requires i < |events|
    ensures States(events)[i + 1] == Step(States(events)[i], events[i])
  {
    var n := |events| - 1;
    if i < n {
      NextState(events[..n], i);
    }
  }

  lemma {:induction false} FirstState(events: seq<Event>)
    ensures States(events)[0] == START
  {
    if events != [] {
      FirstState(events[..|events| - 1]);
    }
  }

  lemma {:induction false} TraceKeepsInv(events: seq<Event>, i: nat)
    requires Trace(events) && i <= |events|
    ensures Inv(States(events)[i])
  {
    if i > 0 {
      TraceKeepsInv(events, i - 1);
      NextState(events, i - 1);
      StepKeepsInv(States(events)[i - 1], events[i - 1]);
    } else {
      FirstState(events);
    }
  }

  /** At every moment a login has at most one accepted token, and only its own user's. */
  lemma OneTokenPerLogin(events: seq<Event>, i: nat, u: string, a: nat, v: string, b: nat)
    requires Trace(events) && i <= |events|
    requires var s := States(events)[i];
      SessionValid(s, u, a) && SessionValid(s, v, b) && Lookup(s.lineage, a) == Lookup(s.lineage, b)
    ensures a == b && u == v
  {
    TraceKeepsInv(events, i);
  }

  // ---- Tokens that are gone --------------------------------------------------------------------

  /** An issued token that its login's row does not hold. */
  ghost predicate Gone(s: State, token: nat) {
    token in s.lineage && forall id :: id in s.rows ==> s.rows[id].token != token
  }

  lemma StepKeepsGone(s: State, ev: Event, token: nat)
    requires Fresh(s, ev) && Gone(s, token)
    ensures Gone(Step(s, ev), token)
  {
  }

  lemma {:induction false} StaysGone(events: seq<Event>, i: nat, j: nat, token: nat)
    requires Trace(events) && i <= j <= |events| && Gone(States(events)[i], token)
    ensures Gone(States(events)[j], token)
    decreases j
  {
    if i < j {
      StaysGone(events, i, j - 1, token);
      GoneOneMore(events, j - 1, token);
    }
  }

  lemma GoneOneMore(events: seq<Event>, i: nat, token: nat)
    requires Trace(events) && i < |events| && Gone(States(events)[i], token)
    ensures Gone(States(events)[i + 1], token)
  {
    NextState(events, i);
    StepKeepsGone(States(events)[i], events[i], token);
  }

  /** After a rotation the old token is gone; if it already was, so is the new one. */
  lemma RotateLeavesOneToken(s: State, ev: Event)
    requires Inv(s) && Fresh(s, ev) && ev.RefreshRotate? && ev.handler in s.checked
    ensures Gone(s, s.checked[ev.handler].token) ==> Gone(Step(s, ev), ev.newToken)
  {
  }

  predicate Rotates(s: State, ev: Event, token: nat) {
    ev.RefreshRotate? && ev.handler in s.checked && s.checked[ev.handler].token == token
  }

  /** Every refresh of a token was checked for the user whose row holds it. */
  ghost predicate CheckedByOwner(s: State) {
    forall h, id :: h in s.checked && id in s.rows && s.rows[id].token == s.checked[h].token ==>
      s.rows[id].user == s.checked[h].user
  }

  lemma StepKeepsOwners(s: State, ev: Event)
    requires Inv(s) && Fresh(s, ev) && CheckedByOwner(s)
    ensures CheckedByOwner(Step(s, ev))
  {
  }

  lemma {:induction false} TraceKeepsOwners(events: seq<Event>, i: nat)
    requires Trace(events) && i <= |events|
    ensures CheckedByOwner(States(events)[i])
    decreases i
  {
    if i > 0 {
      TraceKeepsOwners(events, i - 1);
      TraceKeepsInv(events, i - 1);
      NextState(events, i - 1);
      StepKeepsOwners(States(events)[i - 1], events[i - 1]);
    } else {
      FirstState(events);
    }
  }

  lemma RotatedAwayIsGone(s: State, ev: Event, token: nat)
    requires Inv(s) && Fresh(s, ev) && CheckedByOwner(s) && Rotates(s, ev, token)
    ensures Gone(Step(s, ev), token)
  {
  }

  lemma GoneOnceRotated(events: seq<Event>, i: nat, k: nat, token: nat)
    requires Trace(events) && i < k <= |events| && Rotates(States(events)[i], events[i], token)
    ensures Gone(States(events)[k], token)
  {
    TraceKeepsInv(events, i);
    TraceKeepsOwners(events, i);
    RotatedAwayIsGone(States(events)[i], events[i], token);
    NextState(events, i);
    StaysGone(events, i + 1, k, token);
  }

  lemma GoneIsRejected(s: State, user: string, token: nat)
    requires Gone(s, token)
    ensures !SessionValid(s, user, token)
  {
  }

  /** A token that has been rotated away is never accepted again. */
  lemma RotatedAwayNeverAccepted(events: seq<Event>, i: nat, k: nat, token: nat, user: string)
    requires Trace(events) && i < k <= |events| && Rotates(States(events)[i], events[i], token)
    ensures !SessionValid(States(events)[k], user, token)
  {
    GoneOnceRotated(events, i, k, token);
    GoneIsRejected(States(events)[k], user, token);
  }

  lemma LateTokenIsGone(events: seq<Event>, j: nat, k: nat, token: nat)
    requires Trace(events) && j < k <= |events| && Gone(States(events)[j], token)
    requires Rotates(States(events)[j], events[j], token)
    ensures Gone(States(events)[k], events[j].newToken)
  {
    TraceKeepsInv(events, j);
    RotateLeavesOneToken(States(events)[j], events[j]);
    NextState(events, j);
    StaysGone(events, j + 1, k, events[j].newToken);
  }

  /** Of racing refreshes of one token only the first can have its new token accepted, ever. */
  lemma RacingRefreshes(events: seq<Event>, i: nat, j: nat, k: nat, token: nat, user: string)
    requires Trace(events) && i < j < k <= |events|
    requires Rotates(States(events)[i], events[i], token)
    requires Rotates(States(events)[j], events[j], token)
    ensures !SessionValid(States(events)[k], user, events[j].newToken)
  {
    GoneOnceRotated(events, i, j, token);
    LateTokenIsGone(events, j, k, token);
    GoneIsRejected(States(events)[k], user, events[j].newToken);
  }

  /** The refresh handler answers with the new token whatever the rotation did; that token is accepted
      exactly if a row still held the old one, was not revoked meanwhile, and the expiry lies ahead. */
  lemma NewTokenAcceptedIff(s: State, ev: Event)
    requires Inv(s) && Fresh(s, ev) && ev.RefreshRotate? && ev.handler in s.checked
    ensures var r := s.checked[ev.handler];
      SessionValid(Step(s, ev), r.user, ev.newToken) <==>
        ev.expires > s.now && exists id :: id in s.rows && Holds(s.rows[id], r.user, r.token) && !s.rows[id].revoked
  {
    var r, after := s.checked[ev.handler], Step(s, ev);
    if id :| id in s.rows && Holds(s.rows[id], r.user, r.token) && !s.rows[id].revoked {
      assert id in after.rows && Holds(after.rows[id], r.user, ev.newToken);
    }
    if id :| id in after.rows && Holds(after.rows[id], r.user, ev.newToken) && Live(after.rows[id], s.now) {
      assert Lookup(s.lineage, s.rows[id].token) == Some(id);
      assert Holds(s.rows[id], r.user, r.token);
    }
  }

  // ---- Revocation ------------------------------------------------------------------------------

  ghost predicate RevokedLogin(s: State, id: nat) {
    id in s.rows && s.rows[id].revoked
  }

  lemma StepKeepsRevoked(s: State, ev: Event, id: nat)
    requires Fresh(s, ev) && RevokedLogin(s, id)
    ensures RevokedLogin(Step(s, ev), id)
  {
  }

  lemma {:induction false} StaysRevoked(events: seq<Event>, i: nat, j: nat, id: nat)
    requires Trace(events) && i <= j <= |events| && RevokedLogin(States(events)[i], id)
    ensures RevokedLogin(States(events)[j], id)
    decreases j
  {
    if i < j {
      StaysRevoked(events, i, j - 1, id);
      RevokedOneMore(events, j - 1, id);
    }
  }

  lemma RevokedOneMore(events: seq<Event>, i: nat, id: nat)
    requires Trace(events) && i < |events| && RevokedLogin(States(events)[i], id)
    ensures RevokedLogin(States(events)[i + 1], id)
  {
    NextState(events, i);
    StepKeepsRevoked(States(events)[i], events[i], id);
  }

  /** A revoked login is never live again: none of its tokens, past or future, is accepted, even when
      a refresh that had already passed its check rotates the row afterwards. */
  lemma RevokedNeverAccepted(events: seq<Event>, i: nat, j: nat, id: nat, user: string, token: nat)
    requires Trace(events) && i <= j <= |events|
    requires RevokedLogin(States(events)[i], id)
    ensures Lookup(States(events)[j].lineage, token) == Some(id) ==> !SessionValid(States(events)[j], user, token)
  {
    StaysRevoked(events, i, j, id);
    TraceKeepsInv(events, j);
  }

  /** Logging out with a token ends its login exactly if the row still holds that token: a refresh
      that rotates it between the logout's authentication and its update leaves the login alive. */
  lemma RevokeEndsLoginIff(s: State, user: string, token: nat)
    requires Inv(s) && token in s.lineage
    ensures var id := s.lineage[token];
      RevokedLogin(Step(s, Revoke(user, token)), id) <==> s.rows[id].revoked || Holds(s.rows[id], user, token)
  {
  }

  // ---- What the others keep --------------------------------------------------------------------

  /** A revoke ends the acceptance of its own token for its own user, and of nothing else. */
  lemma RevokeSparesOthers(s: State, user: string, token: nat, u: string, a: nat)
    ensures SessionValid(Step(s, Revoke(user, token)), u, a) <==> SessionValid(s, u, a) && !(u == user && a == token)
  {
    var after := Step(s, Revoke(user, token));
    if SessionValid(s, u, a) && !(u == user && a == token) {
      var id :| id in s.rows && Holds(s.rows[id], u, a) && Live(s.rows[id], s.now);
      assert after.rows[id] == s.rows[id];
    }
    if SessionValid(after, u, a) {
      var id :| id in after.rows && Holds(after.rows[id], u, a) && Live(after.rows[id], s.now);
      assert Holds(s.rows[id], u, a) && Live(s.rows[id], s.now);
    }
  }

  /** A login adds its own token, if it has not expired, and no other login's token is lost. */
  lemma LoginSparesOthers(s: State, ev: Event, u: string, a: nat)
    requires ev.Login? && Fresh(s, ev)
    ensures SessionValid(Step(s, ev), u, a)
      <==> SessionValid(s, u, a) || (u == ev.user && a == ev.token && ev.expires > s.now)
  {
    var after := Step(s, ev);
    if SessionValid(s, u, a) {
      var id :| id in s.rows && Holds(s.rows[id], u, a) && Live(s.rows[id], s.now);
      assert after.rows[id] == s.rows[id];
    }
    if u == ev.user && a == ev.token && ev.expires > s.now {
      assert Holds(after.rows[ev.id], u, a) && Live(after.rows[ev.id], s.now);
    }
  }

  /** A rotation takes its old token, and no other login's is lost or gained. */
  lemma RotationSparesOthers(s: State, ev: Event, u: string, a: nat)
    requires ev.RefreshRotate? && ev.handler in s.checked && a != ev.newToken
    ensures var r := s.checked[ev.handler];
      SessionValid(Step(s, ev), u, a) <==> SessionValid(s, u, a) && !(u == r.user && a == r.token)
  {
    var r, after := s.checked[ev.handler], Step(s, ev);
    if SessionValid(s, u, a) && !(u == r.user && a == r.token) {
      var id :| id in s.rows && Holds(s.rows[id], u, a) && Live(s.rows[id], s.now);
      assert after.rows[id] == s.rows[id];
    }
    if SessionValid(after, u, a) {
      var id :| id in after.rows && Holds(after.rows[id], u, a) && Live(after.rows[id], s.now);
      assert after.rows[id] == s.rows[id];
    }
  }

  /** A check changes no acceptance, and lets exactly an accepted token go on to a rotation. */
  lemma CheckSparesAll(s: State, ev: Event, u: string, a: nat)
    requires ev.RefreshCheck? && ev.handler !in s.checked
    ensures SessionValid(Step(s, ev), u, a) <==> SessionValid(s, u, a)
    ensures ev.handler in Step(s, ev).checked <==> SessionValid(s, ev.user, ev.token)
  {
    assert Step(s, ev).rows == s.rows && Step(s, ev).now == s.now;
    if SessionValid(s, u, a) {
      var id :| id in s.rows && Holds(s.rows[id], u, a) && Live(s.rows[id], s.now);
      assert Holds(Step(s, ev).rows[id], u, a) && Live(Step(s, ev).rows[id], Step(s, ev).now);
    }
    if SessionValid(Step(s, ev), u, a) {
      var id :| id in s.rows && Holds(Step(s, ev).rows[id], u, a) && Live(Step(s, ev).rows[id], s.now);
      assert Holds(s.rows[id], u, a) && Live(s.rows[id], s.now);
    }
  }

  /** As time goes on, a token is accepted until its login expires, and not after. */
  lemma ExpiryIsExact(s: State, now: Time, u: string, a: nat)
    requires now >= s.now
    ensures SessionValid(Step(s, Tick(now)), u, a)
      <==> exists id :: id in s.rows && Holds(s.rows[id], u, a) && !s.rows[id].revoked && s.rows[id].expires > now
  {
    var after := Step(s, Tick(now));
    if SessionValid(after, u, a) {
      var id :| id in s.rows && Holds(after.rows[id], u, a) && Live(after.rows[id], now);
      assert Holds(s.rows[id], u, a);
    }
    if id :| id in s.rows && Holds(s.rows[id], u, a) && !s.rows[id].revoked && s.rows[id].expires > now {
      assert Holds(after.rows[id], u, a) && Live(after.rows[id], after.now);
    }
  }

  // ---- Histories that fall short ---------------------------------------------------------------

  ghost predicate Reaches(events: seq<Event>, s: State) {
    Trace(events) && States(events)[|events|] == s
  }

  lemma Then(s: State, events: seq<Event>, ev: Event) returns (more: seq<Event>, next: State)
    requires Reaches(events, s) && Fresh(s, ev)
    ensures more == events + [ev] && next == Step(s, ev) && Reaches(more, next)
  {
    next := Step(s, ev);
    more := events + [ev];
    assert more[..|events|] == events;
    forall i | 0 <= i < |more|
      ensures Fresh(States(more)[i], more[i])
    {
    }
  }

  /** Two refreshes pass their check with the same token: both are answered with a new one, and only the
      first is accepted. */
  lemma LostRace(user: string, expires: Time) returns (events: seq<Event>)
    requires expires > 0
    ensures Trace(events)
    ensures var s := States(events)[|events|];
      SessionValid(s, user, 1) && !SessionValid(s, user, 2) && s.checked == map[]
  {
    var s := START;
    events := [];
    events, s := Then(s, events, Login(0, user, 0, expires));
    events, s := Then(s, events, RefreshCheck(1, user, 0));
    events, s := Then(s, events, RefreshCheck(2, user, 0));
    events, s := Then(s, events, RefreshRotate(1, 1, expires));
    events, s := Then(s, events, RefreshRotate(2, 2, expires));
  }

  /** A logout whose token a refresh rotates first: the login goes on. */
  lemma LogoutMisses(user: string, expires: Time) returns (events: seq<Event>)
    requires expires > 0
    ensures Trace(events) && |events| > 0 && events[|events| - 1] == Revoke(user, 0)
    ensures var s := States(events)[|events|]; SessionValid(s, user, 1)
  {
    var s := START;
    events := [];
    events, s := Then(s, events, Login(0, user, 0, expires));
    events, s := Then(s, events, RefreshCheck(1, user, 0));
    events, s := Then(s, events, RefreshRotate(1, 1, expires));
    events, s := Then(s, events, Revoke(user, 0));
  }

  // ---- The sessions table ----------------------------------------------------------------------

  /** The table, and the moments at which a handler is between its check and its rotation. What fails
      is an argument; a call that fails answers so and has changed nothing. */
  class SessionTable {
    var rows: map<nat, Row>
    var now: Time
    ghost var checked: map<nat, Refresh>
    ghost var lineage: map<nat, nat>

    ghost function StateNow(): State
      reads this
    {
      State(rows, checked, lineage, now)
    }

    constructor ()
      ensures StateNow() == START
    {
      rows, now, checked, lineage := map[], 0, map[], map[];
    }

    /** HandleLogin, credentials accepted: the answer carries the token. */
    method HandleLogin(id: nat, user: string, token: nat, expires: Time, insertFails: bool)
      returns (answer: Option<nat>)
      modifies this
      ensures StateNow()
        == if insertFails then old(StateNow()) else Step(old(StateNow()), Login(id, user, token, expires))
      ensures answer == if insertFails then None else Some(token)
    {
      if insertFails {
        return None;
      }
      rows := rows[id := Row(user, token, expires, false)];
      lineage := lineage[token := id];
      answer := Some(token);
    }

    /** The first half of HandleRefresh; a failed query counts as invalid. */
    method CheckRefresh(ghost handler: nat, user: string, token: nat, queryFails: bool) returns (valid: bool)
      modifies this
      ensures valid <==> !queryFails && SessionValid(old(StateNow()), user, token)
      ensures StateNow()
        == if queryFails then old(StateNow()) else Step(old(StateNow()), RefreshCheck(handler, user, token))
    {
      valid := !queryFails && SessionValid(State(rows, map[], map[], now), user, token);
      if valid {
        checked := checked[handler := Refresh(user, token)];
      }
    }

    /** Its second half: one statement, all rows at once, however many it hits. The answer carries the
        new token. */
    method RotateRefresh(
      ghost handler: nat, user: string, token: nat, newToken: nat, expires: Time, updateFails: bool)
      returns (answer: Option<nat>)
      requires handler in checked && checked[handler] == Refresh(user, token)
      modifies this
      ensures StateNow()
        == if updateFails then old(StateNow()) else Step(old(StateNow()), RefreshRotate(handler, newToken, expires))
      ensures answer == if updateFails then None else Some(newToken)
    {
      if updateFails {
        return None;
      }
      rows := RotateRows(rows, user, token, newToken, expires);
      checked := checked - {handler};
      lineage := if token in lineage then lineage[newToken := lineage[token]] else lineage;
      answer := Some(newToken);
    }

    /** HandleLogout answers success whatever happened. */
    method HandleLogout(user: string, token: nat, updateFails: bool)
      modifies this
      ensures StateNow() == if updateFails then old(StateNow()) else Step(old(StateNow()), Revoke(user, token))
    {
      if !updateFails {
        rows := RevokeRows(rows, user, token);
      }
    }
  }
}
