/** The limiters as objects, and the two of them that guard authentication requests in series. */
module RateLimiter {
  import opened Options
  import opened RateLimit

  /** What the key functions read of a request; the address and e-mail are taken as already extracted. */
  datatype Request = Request(ip: string, email: string, tenant: string, user: string)

  datatype KeyKind = ByIp | ByEmail | ByActor

  datatype Scope = Unguarded | Auth | Actor

  function KeyOf(kind: KeyKind, r: Request): string {
    var key :=
      match kind
      case ByIp => r.ip
      case ByEmail => if r.email == "" then r.ip else "email:" + r.email
      case ByActor => if r.user == "" then r.ip else "user:" + r.tenant + ":" + r.user;
    if key == "" then r.ip else key
  }

  class RateBucket {
    var count: nat
    var reset: int

    constructor (reset: int)
      ensures this.count == 0 && this.reset == reset
    {
      this.count, this.reset := 0, reset;
    }
  }

  class Limiter {
    const limit: int
    const window: int
    const kind: KeyKind
    var clients: map<string, RateBucket>

    constructor (limit: int, window: int, kind: KeyKind)
      ensures this.limit == limit && this.window == window && this.kind == kind
      ensures Valid() && View() == map[] && clients == map[]
    {
      this.limit, this.window, this.kind, this.clients := limit, window, kind, map[];
    }

    /** No two keys share a bucket. */
    ghost predicate Valid()
      reads this
    {
      forall a, b :: a in clients && b in clients && a != b ==> clients[a] != clients[b]
    }

    ghost function View(): map<string, Bucket>
      reads this, clients.Values
    {
      map key | key in clients :: Bucket(clients[key].count, clients[key].reset)
    }

    method Enforce(r: Request, now: int) returns (d: Option<Decision>)
      requires Valid()
      modifies this, clients.Values
      ensures Valid() && fresh(clients.Values - old(clients.Values))
      ensures limit <= 0 ==> d == None && View() == old(View())
      ensures limit > 0 ==> View() == After(this, old(View()), r, now)
      ensures limit > 0 ==> d == Some(DecisionOf(View()[KeyOf(kind, r)], now, limit))
      ensures limit > 0 ==> d.value.allowed == AdmitsNow(this, old(View()), r, now)
    {
      if limit <= 0 {
        return None;
      }
      var key := KeyOf(kind, r);
      var bucket := CountRequest(key, now);
      d := Some(DecisionOf(bucket, now, limit));
    }

    /** The part under the mutex. */
    method CountRequest(key: string, now: int) returns (bucket: Bucket)
      requires Valid()
      modifies this, clients.Values
      ensures Valid() && fresh(clients.Values - old(clients.Values))
      ensures View() == RateLimit.Enforce(old(View()), Event(key, now), window) && bucket == View()[key]
    {
      OpenBucket(key, now);
      CountIn(key);
      bucket := Bucket(clients[key].count, clients[key].reset);
    }

    /** A bucket for the key whose time has not run out. */
    method OpenBucket(key: string, now: int)
      requires Valid()
      modifies this
      ensures Valid() && fresh(clients.Values - old(clients.Values)) && key in clients
      ensures View() == old(View())[key :=
        if key !in old(View()) || now > old(View())[key].reset then Bucket(0, now + window) else old(View())[key]]
    {
      if key !in clients || now > clients[key].reset {
        var bucket := new RateBucket(now + window);
        clients := clients[key := bucket];
      }
    }

    method CountIn(key: string)
      requires Valid() && key in clients
      modifies clients[key]
      ensures Valid() && clients == old(clients)
      ensures View() == old(View())[key := Bucket(old(View())[key].count + 1, old(View())[key].reset)]
    {
      clients[key].count := clients[key].count + 1;
      assert forall other :: other in clients && other != key ==> clients[other] != clients[key];
    }
  }

  // ---- Two limiters in series ------------------------------------------------------------------

  /** Concurrent authentication requests, as the two limiters count them: each request at the address
      limiter first, and later, if that let it through, at the e-mail limiter, each time with a clock
      reading of its own and the key that limiter uses. Other requests may come in between. */
  datatype SeriesStep =
    | AtIp(request: nat, ip: string, now: int)
    | AtEmail(request: nat, email: string, now: int)

  /** The buckets of both limiters, and the requests that have passed the first only. */
  datatype Series = Series(byIp: map<string, Bucket>, byEmail: map<string, Bucket>, passed: map<nat, Event>)

  function SeriesNext(s: Series, step: SeriesStep, limit: int, window: int): Series {
    match step
    case AtIp(request, ip, now) =>
      var ev := Event(ip, now);
      Series(RateLimit.Enforce(s.byIp, ev, window), s.byEmail,
             if Allowed(s.byIp, ev, limit, window) then s.passed[request := ev] else s.passed)
    case AtEmail(request, email, now) =>
      if request !in s.passed then s
      else s.(byEmail := RateLimit.Enforce(s.byEmail, Event(email, now), window), passed := s.passed - {request})
  }

  function SeriesAfter(steps: seq<SeriesStep>, limit: int, window: int): Series {
    if steps == [] then Series(map[], map[], map[])
    else SeriesNext(SeriesAfter(steps[..|steps| - 1], limit, window), steps[|steps| - 1], limit, window)
  }

  /** The step by which a request passes both limiters. */
  predicate Serves(s: Series, step: SeriesStep, limit: int, window: int) {
    step.AtEmail? && step.request in s.passed && Allowed(s.byEmail, Event(step.email, step.now), limit, window)
  }

  predicate Counts(ev: Event, key: string, lo: int, hi: int) {
    ev.key == key && lo <= ev.now <= hi
  }

  /** Requests of an address served, by their readings at the address limiter. */
  function ServedToIp(steps: seq<SeriesStep>, key: string, lo: int, hi: int, limit: int, window: int): nat {
    if steps == [] then 0
    else
      var n := |steps| - 1;
      var s := SeriesAfter(steps[..n], limit, window);
      ServedToIp(steps[..n], key, lo, hi, limit, window)
      + if Serves(s, steps[n], limit, window) && Counts(s.passed[steps[n].request], key, lo, hi) then 1 else 0
  }

  /** Requests of an e-mail served, by their readings at the e-mail limiter. */
  function ServedToEmail(steps: seq<SeriesStep>, key: string, lo: int, hi: int, limit: int, window: int): nat {
    if steps == [] then 0
    else
      var n := |steps| - 1;
      var s := SeriesAfter(steps[..n], limit, window);
      ServedToEmail(steps[..n], key, lo, hi, limit, window)
      + if Serves(s, steps[n], limit, window) && Counts(Event(steps[n].email, steps[n].now), key, lo, hi) then 1 else 0
  }

  /** What the address limiter sees: every authentication request. */
  function IpTrace(steps: seq<SeriesStep>): seq<Event> {
    if steps == [] then []
    else
      var n := |steps| - 1;
      if steps[n].AtIp? then IpTrace(steps[..n]) + [Event(steps[n].ip, steps[n].now)] else IpTrace(steps[..n])
  }

  /** What the e-mail limiter sees: the requests the address limiter let through. */
  function EmailTrace(steps: seq<SeriesStep>, limit: int, window: int): seq<Event> {
    if steps == [] then []
    else
      var n := |steps| - 1;
      var before := EmailTrace(steps[..n], limit, window);
      if steps[n].AtEmail? && steps[n].request in SeriesAfter(steps[..n], limit, window).passed
      then before + [Event(steps[n].email, steps[n].now)] else before
  }

  lemma OneMoreClient(events: seq<Event>, ev: Event, window: int)
    ensures ClientsAfter(events + [ev], window) == RateLimit.Enforce(ClientsAfter(events, window), ev, window)
  {
  }

  /** On any interleaving, each limiter's buckets are those of the requests it sees. */
  lemma {:induction false} BucketsFollowTraces(steps: seq<SeriesStep>, limit: int, window: int)
    ensures SeriesAfter(steps, limit, window).byIp == ClientsAfter(IpTrace(steps), window)
    ensures SeriesAfter(steps, limit, window).byEmail == ClientsAfter(EmailTrace(steps, limit, window), window)
  {
    if steps != [] {
      var n := |steps| - 1;
      BucketsFollowTraces(steps[..n], limit, window);
      OneMoreClient(IpTrace(steps[..n]), Event(if steps[n].AtIp? then steps[n].ip else "", steps[n].now), window);
      OneMoreClient(
        EmailTrace(steps[..n], limit, window), Event(if steps[n].AtEmail? then steps[n].email else "", steps[n].now),
        window);
    }
  }

  lemma AdmittedOneMore(events: seq<Event>, ev: Event, key: string, lo: int, hi: int, limit: int, window: int)
    ensures AdmittedOf(events + [ev], key, lo, hi, limit, window)
      == AdmittedOf(events, key, lo, hi, limit, window)
         + if Counts(ev, key, lo, hi) && Allowed(ClientsAfter(events, window), ev, limit, window) then 1 else 0
  {
  }

  /** Requests of an address between the two limiters. */
  ghost function Waiting(passed: map<nat, Event>, key: string, lo: int, hi: int): set<nat> {
    set request | request in passed && Counts(passed[request], key, lo, hi)
  }

  lemma WaitingAdded(passed: map<nat, Event>, request: nat, ev: Event, key: string, lo: int, hi: int)
    ensures |Waiting(passed[request := ev], key, lo, hi)|
      <= |Waiting(passed, key, lo, hi)| + if Counts(ev, key, lo, hi) then 1 else 0
  {
    var before := Waiting(passed, key, lo, hi);
    assert Waiting(passed[request := ev], key, lo, hi)
      == before - {request} + if Counts(ev, key, lo, hi) then {request} else {};
  }

  lemma WaitingRemoved(passed: map<nat, Event>, request: nat, key: string, lo: int, hi: int)
    requires request in passed
    ensures |Waiting(passed - {request}, key, lo, hi)|
      == |Waiting(passed, key, lo, hi)| - if Counts(passed[request], key, lo, hi) then 1 else 0
  {
    assert Waiting(passed - {request}, key, lo, hi) == Waiting(passed, key, lo, hi) - {request};
  }

  /** The requests of an address served, and those on their way, were all admitted for it. */
  lemma {:induction false} ServedByIp(steps: seq<SeriesStep>, key: string, lo: int, hi: int, limit: int, window: int)
    ensures ServedToIp(steps, key, lo, hi, limit, window)
      + |Waiting(SeriesAfter(steps, limit, window).passed, key, lo, hi)|
      <= AdmittedOf(IpTrace(steps), key, lo, hi, limit, window)
  {
    if steps != [] {
      var n := |steps| - 1;
      var s := SeriesAfter(steps[..n], limit, window);
      ServedByIp(steps[..n], key, lo, hi, limit, window);
      match steps[n]
      case AtIp(request, ip, now) =>
        BucketsFollowTraces(steps[..n], limit, window);
        AdmittedOneMore(IpTrace(steps[..n]), Event(ip, now), key, lo, hi, limit, window);
        WaitingAdded(s.passed, request, Event(ip, now), key, lo, hi);
      case AtEmail(request, _, _) =>
        if request in s.passed {
          WaitingRemoved(s.passed, request, key, lo, hi);
        }
    }
  }

  lemma {:induction false} ServedByEmail(steps: seq<SeriesStep>, key: string, lo: int, hi: int, limit: int, window: int)
    ensures ServedToEmail(steps, key, lo, hi, limit, window)
      == AdmittedOf(EmailTrace(steps, limit, window), key, lo, hi, limit, window)
  {
    if steps != [] {
      var n := |steps| - 1;
      ServedByEmail(steps[..n], key, lo, hi, limit, window);
      if steps[n].AtEmail? {
        BucketsFollowTraces(steps[..n], limit, window);
        AdmittedOneMore(
          EmailTrace(steps[..n], limit, window), Event(steps[n].email, steps[n].now), key, lo, hi, limit, window);
      }
    }
  }

  /** Each limiter's clock readings, in its counting order, are at most `skew` out of order. */
  ghost predicate StepsSkewed(steps: seq<SeriesStep>, skew: int) {
    forall i, j :: 0 <= i < j < |steps| && steps[i].AtIp? == steps[j].AtIp? ==> steps[i].now <= steps[j].now + skew
  }

  ghost predicate StepsBefore(steps: seq<SeriesStep>, atIp: bool, bound: int) {
    forall i :: 0 <= i < |steps| && steps[i].AtIp? == atIp ==> steps[i].now <= bound
  }

  lemma {:induction false} IpTraceSkewed(steps: seq<SeriesStep>, skew: int)
    requires StepsSkewed(steps, skew)
    ensures EventsSkewed(IpTrace(steps), skew)
    ensures forall bound :: StepsBefore(steps, true, bound) ==> AllBefore(IpTrace(steps), bound)
  {
    if steps != [] {
      var n := |steps| - 1;
      IpTraceSkewed(steps[..n], skew);
      assert forall bound :: StepsBefore(steps, true, bound) ==> StepsBefore(steps[..n], true, bound);
      assert steps[n].AtIp? ==> StepsBefore(steps[..n], true, steps[n].now + skew);
    }
  }

  lemma {:induction false} EmailTraceSkewed(steps: seq<SeriesStep>, skew: int, limit: int, window: int)
    requires StepsSkewed(steps, skew)
    ensures EventsSkewed(EmailTrace(steps, limit, window), skew)
    ensures forall bound :: StepsBefore(steps, false, bound) ==> AllBefore(EmailTrace(steps, limit, window), bound)
  {
    if steps != [] {
      var n := |steps| - 1;
      EmailTraceSkewed(steps[..n], skew, limit, window);
      assert forall bound :: StepsBefore(steps, false, bound) ==> StepsBefore(steps[..n], false, bound);
      assert steps[n].AtEmail? ==> StepsBefore(steps[..n], false, steps[n].now + skew);
    }
  }

  /** The composition keeps both bounds on any interleaving: whatever the mix of addresses and e-mails,
      in an interval that with the skew of the readings spans no more than the window and one tick, no
      address and no e-mail is served more than 2 * limit - 1 times. */
  lemma SeriesKeepsBothBounds(
    steps: seq<SeriesStep>, ip: string, email: string, lo: int, len: int, skew: nat, limit: int, window: int)
    requires StepsSkewed(steps, skew) && limit > 0 && Spans(len, skew, window)
    ensures ServedToIp(steps, ip, lo, lo + len, limit, window) <= 2 * limit - 1
    ensures ServedToEmail(steps, email, lo, lo + len, limit, window) <= 2 * limit - 1
  {
    ServedByIp(steps, ip, lo, lo + len, limit, window);
    IpTraceSkewed(steps, skew);
    EveryKeyIsBounded(IpTrace(steps), ip, lo, len, skew, limit, window);
    ServedByEmail(steps, email, lo, lo + len, limit, window);
    EmailTraceSkewed(steps, skew, limit, window);
    EveryKeyIsBounded(EmailTrace(steps, limit, window), email, lo, len, skew, limit, window);
  }

  /** A whole fraction of the base limit, but at least one. */
  predicate IsPart(limit: int, base: int, fraction: int) {
    if base < fraction then limit == 1 else fraction * limit <= base < fraction * (limit + 1)
  }

  function AtLeastOne(n: int): int {
    if n > 1 then n else 1
  }

  /** The guard of sensitive mutations: authentication by address and then by e-mail, other sensitive
      calls by actor. Halves and quarters of the base limit, at least one. */
  class SensitiveGuard {
    const authByIp: Limiter
    const authByEmail: Limiter
    const byActor: Limiter

    constructor (baseLimit: int, window: int)
      ensures Valid() && fresh(authByIp) && fresh(authByEmail) && fresh(byActor)
      ensures authByIp.limit == authByEmail.limit && IsPart(authByIp.limit, baseLimit, 4)
      ensures IsPart(byActor.limit, baseLimit, 2)
      ensures authByIp.window == authByEmail.window == byActor.window == window
      ensures authByIp.View() == authByEmail.View() == byActor.View() == map[]
    {
      authByIp := new Limiter(AtLeastOne(baseLimit / 4), window, ByIp);
      authByEmail := new Limiter(AtLeastOne(baseLimit / 4), window, ByEmail);
      byActor := new Limiter(AtLeastOne(baseLimit / 2), window, ByActor);
    }

    ghost function Repr(): set<object>
      reads authByIp, authByEmail, byActor
    {
      {authByIp, authByEmail, byActor} + authByIp.clients.Values + authByEmail.clients.Values + byActor.clients.Values
    }

    ghost predicate Valid()
      reads authByIp, authByEmail, byActor
    {
      && authByIp != authByEmail && authByIp != byActor && authByEmail != byActor
      && authByIp.limit > 0 && authByEmail.limit > 0 && byActor.limit > 0
      && authByIp.kind == ByIp && authByEmail.kind == ByEmail && byActor.kind == ByActor
      && authByIp.Valid() && authByEmail.Valid() && byActor.Valid()
      && authByIp.clients.Values !! authByEmail.clients.Values
      && authByIp.clients.Values !! byActor.clients.Values
      && authByEmail.clients.Values !! byActor.clients.Values
    }

    /** Each limiter reads the clock for itself; `later` is the second reading of an authentication request. */
    method Handle(scope: Scope, r: Request, now: int, later: int) returns (served: bool)
      requires Valid()
      modifies Repr()
      ensures Valid() && fresh(Repr() - old(Repr()))
      ensures scope == Unguarded ==> served
      ensures scope == Auth ==> served == (AdmitsNow(authByIp, old(authByIp.View()), r, now)
                                           && AdmitsNow(authByEmail, old(authByEmail.View()), r, later))
      ensures authByIp.View()
        == if scope == Auth then After(authByIp, old(authByIp.View()), r, now) else old(authByIp.View())
      ensures authByEmail.View()
        == if scope == Auth && AdmitsNow(authByIp, old(authByIp.View()), r, now)
           then After(authByEmail, old(authByEmail.View()), r, later) else old(authByEmail.View())
      ensures scope == Actor ==> served == AdmitsNow(byActor, old(byActor.View()), r, now)
      ensures byActor.View()
        == if scope == Actor then After(byActor, old(byActor.View()), r, now) else old(byActor.View())
    {
      match scope {
        case Unguarded => served := true;
        case Auth => served := HandleAuth(r, now, later);
        case Actor => served := HandleActor(r, now);
      }
    }

    /** An authentication request counts against the e-mail only if the address let it through. */
    method HandleAuth(r: Request, now: int, later: int) returns (served: bool)
      requires Valid()
      modifies authByIp, authByIp.clients.Values, authByEmail, authByEmail.clients.Values
      ensures Valid() && byActor.View() == old(byActor.View())
      ensures fresh(authByIp.clients.Values - old(authByIp.clients.Values))
      ensures fresh(authByEmail.clients.Values - old(authByEmail.clients.Values))
      ensures served == (AdmitsNow(authByIp, old(authByIp.View()), r, now)
                         && AdmitsNow(authByEmail, old(authByEmail.View()), r, later))
      ensures authByIp.View() == After(authByIp, old(authByIp.View()), r, now)
      ensures authByEmail.View()
        == if AdmitsNow(authByIp, old(authByIp.View()), r, now)
           then After(authByEmail, old(authByEmail.View()), r, later) else old(authByEmail.View())
    {
      served := EnforceByIp(r, now);
      if served {
        served := EnforceByEmail(r, later);
      }
    }

    method EnforceByIp(r: Request, now: int) returns (allowed: bool)
      requires Valid()
      modifies authByIp, authByIp.clients.Values
      ensures Valid() && fresh(authByIp.clients.Values - old(authByIp.clients.Values))
      ensures authByEmail.View() == old(authByEmail.View()) && byActor.View() == old(byActor.View())
      ensures authByIp.View() == After(authByIp, old(authByIp.View()), r, now)
      ensures allowed == AdmitsNow(authByIp, old(authByIp.View()), r, now)
    {
      var d := authByIp.Enforce(r, now);
      allowed := d.value.allowed;
    }

    method EnforceByEmail(r: Request, later: int) returns (allowed: bool)
      requires Valid()
      modifies authByEmail, authByEmail.clients.Values
      ensures Valid() && fresh(authByEmail.clients.Values - old(authByEmail.clients.Values))
      ensures authByIp.View() == old(authByIp.View()) && byActor.View() == old(byActor.View())
      ensures authByEmail.View() == After(authByEmail, old(authByEmail.View()), r, later)
      ensures allowed == AdmitsNow(authByEmail, old(authByEmail.View()), r, later)
    {
      var d := authByEmail.Enforce(r, later);
      allowed := d.value.allowed;
    }

    method HandleActor(r: Request, now: int) returns (served: bool)
      requires Valid()
      modifies byActor, byActor.clients.Values
      ensures Valid() && fresh(byActor.clients.Values - old(byActor.clients.Values))
      ensures authByIp.View() == old(authByIp.View()) && authByEmail.View() == old(authByEmail.View())
      ensures served == AdmitsNow(byActor, old(byActor.View()), r, now)
      ensures byActor.View() == After(byActor, old(byActor.View()), r, now)
    {
      var only := byActor.Enforce(r, now);
      served := only.value.allowed;
    }
  }

  function AdmitsNow(l: Limiter, view: map<string, Bucket>, r: Request, now: int): bool {
    Allowed(view, Event(KeyOf(l.kind, r), now), l.limit, l.window)
  }

  function After(l: Limiter, view: map<string, Bucket>, r: Request, now: int): map<string, Bucket> {
    RateLimit.Enforce(view, Event(KeyOf(l.kind, r), now), l.window)
  }

  // ---- Who shares a bucket ---------------------------------------------------------------------

  /** What identifies a request to a limiter: its address; its e-mail, if it has one; its user within a
      tenant, if it has one. */
  datatype Identity = Address(ip: string) | Email(email: string) | Account(tenant: string, user: string)

  function IdentityOf(kind: KeyKind, r: Request): Identity {
    match kind
    case ByIp => Address(r.ip)
    case ByEmail => if r.email != "" then Email(r.email) else Address(r.ip)
    case ByActor => if r.user != "" then Account(r.tenant, r.user) else Address(r.ip)
  }

  /** A tenant id holds no colon, and an address that stands in for an e-mail or a user does not look like
      their keys. */
  predicate Plain(kind: KeyKind, r: Request) {
    match kind
    case ByIp => true
    case ByEmail => r.email == "" && |r.ip| >= 6 ==> r.ip[..6] != "email:"
    case ByActor => if r.user == "" then |r.ip| >= 5 ==> r.ip[..5] != "user:" else ':' !in r.tenant
  }

  lemma {:induction false} FirstColon(a: string, x: string)
    requires ':' !in a
    ensures var key := a + ":" + x; key[|a|] == ':' && forall i :: 0 <= i < |a| ==> key[i] != ':'
  {
  }

  lemma {:induction false} SameBeforeColon(a: string, x: string, b: string, y: string)
    requires ':' !in a && ':' !in b && a + ":" + x == b + ":" + y
    ensures a == b && x == y
  {
    FirstColon(a, x);
    FirstColon(b, y);
    var key := a + ":" + x;
    assert |a| == |b|;
    assert key[..|a|] == a && key[..|b|] == b && key[|a| + 1..] == x && key[|b| + 1..] == y;
  }

  lemma {:induction false} AfterPrefix(prefix: string, x: string, y: string)
    ensures prefix + x == prefix + y <==> x == y
    ensures |prefix + x| >= |prefix| && (prefix + x)[..|prefix|] == prefix
  {
    assert (prefix + x)[|prefix|..] == x && (prefix + y)[|prefix|..] == y;
  }

  lemma {:induction false} AccountKey(r: Request)
    requires r.user != ""
    ensures KeyOf(ByActor, r) == "user:" + (r.tenant + ":" + r.user)
    ensures |KeyOf(ByActor, r)| >= 5 && KeyOf(ByActor, r)[..5] == "user:"
  {
    assert "user:" + r.tenant + ":" + r.user == "user:" + (r.tenant + ":" + r.user);
    AfterPrefix("user:", r.tenant + ":" + r.user, "");
  }

  lemma {:induction false} EmailKey(r: Request)
    requires r.email != ""
    ensures KeyOf(ByEmail, r) == "email:" + r.email
    ensures |KeyOf(ByEmail, r)| >= 6 && KeyOf(ByEmail, r)[..6] == "email:"
  {
    AfterPrefix("email:", r.email, "");
  }

  lemma {:induction false} AccountsShareIff(a: Request, b: Request)
    requires a.user != "" && b.user != "" && ':' !in a.tenant && ':' !in b.tenant
    ensures KeyOf(ByActor, a) == KeyOf(ByActor, b) <==> a.tenant == b.tenant && a.user == b.user
  {
    AccountKey(a);
    AccountKey(b);
    AfterPrefix("user:", a.tenant + ":" + a.user, b.tenant + ":" + b.user);
    if KeyOf(ByActor, a) == KeyOf(ByActor, b) {
      SameBeforeColon(a.tenant, a.user, b.tenant, b.user);
    }
  }

  lemma {:induction false} EmailsShareIff(a: Request, b: Request)
    requires a.email != "" && b.email != ""
    ensures KeyOf(ByEmail, a) == KeyOf(ByEmail, b) <==> a.email == b.email
  {
    EmailKey(a);
    EmailKey(b);
    AfterPrefix("email:", a.email, b.email);
  }

  /** Two requests share a bucket of a limiter if and only if they have the same identity to it. */
  lemma {:induction false} SameBucketIff(kind: KeyKind, a: Request, b: Request)
    requires Plain(kind, a) && Plain(kind, b)
    ensures KeyOf(kind, a) == KeyOf(kind, b) <==> IdentityOf(kind, a) == IdentityOf(kind, b)
  {
    match kind
    case ByIp =>
    case ByEmail =>
      if a.email != "" && b.email != "" {
        EmailsShareIff(a, b);
      } else if a.email != "" {
        EmailKey(a);
      } else if b.email != "" {
        EmailKey(b);
      }
    case ByActor =>
      if a.user != "" && b.user != "" {
        AccountsShareIff(a, b);
      } else if a.user != "" {
        AccountKey(a);
      } else if b.user != "" {
        AccountKey(b);
      }
  }

  /** A request of another identity takes nothing from a request's limit; one of the same counts as the
      request itself would have. */
  lemma {:induction false} OthersDoNotCount(
    l: Limiter, view: map<string, Bucket>, a: Request, now: int, b: Request, later: int)
    requires Plain(l.kind, a) && Plain(l.kind, b)
    ensures IdentityOf(l.kind, a) != IdentityOf(l.kind, b) ==>
      AdmitsNow(l, After(l, view, a, now), b, later) == AdmitsNow(l, view, b, later)
    ensures IdentityOf(l.kind, a) == IdentityOf(l.kind, b) ==>
      AdmitsNow(l, After(l, view, a, now), b, later) == AdmitsNow(l, After(l, view, b, now), b, later)
  {
    SameBucketIff(l.kind, a, b);
  }

  /** With room for one request, the second of the same identity within the window is refused. */
  lemma {:induction false} SecondIsRefused(l: Limiter, a: Request, b: Request, now: int, later: int)
    requires Plain(l.kind, a) && Plain(l.kind, b) && l.limit == 1 && later <= now + l.window
    ensures AdmitsNow(l, map[], a, now)
    ensures AdmitsNow(l, After(l, map[], a, now), b, later) <==> IdentityOf(l.kind, a) != IdentityOf(l.kind, b)
  {
    SameBucketIff(l.kind, a, b);
  }
}
