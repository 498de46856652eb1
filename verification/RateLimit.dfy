/** The fixed-window rate limiter: one bucket per key, replaced by the first request after its reset.
    Times and the window are in nanoseconds. */
module RateLimit {
  import opened Options

  datatype Bucket = Bucket(count: nat, reset: int)

  datatype Event = Event(key: string, now: int)

  // ---- One key on its own ----------------------------------------------------------------------

  /** The bucket after a request of its key. */
  function Hit(bucket: Option<Bucket>, now: int, window: int): Bucket {
    if bucket.None? || now > bucket.value.reset then Bucket(1, now + window)
    else bucket.value.(count := bucket.value.count + 1)
  }

  /** The bucket of a key whose requests came at these times. */
  function BucketAfter(times: seq<int>, window: int): Option<Bucket> {
    if times == [] then None
    else Some(Hit(BucketAfter(times[..|times| - 1], window), times[|times| - 1], window))
  }

  function Admits(times: seq<int>, i: nat, limit: int, window: int): bool
    requires i < |times|
  {
    Hit(BucketAfter(times[..i], window), times[i], window).count <= limit
  }

  /** A key's bucket, and how many of its requests were admitted at times in a closed interval. */
  datatype Tally = Tally(bucket: Option<Bucket>, admitted: nat)

  function Tick(s: Tally, t: int, lo: int, hi: int, limit: int, window: int): Tally {
    var bucket := Hit(s.bucket, t, window);
    Tally(Some(bucket), s.admitted + if lo <= t <= hi && bucket.count <= limit then 1 else 0)
  }

  function TallyOf(times: seq<int>, lo: int, hi: int, limit: int, window: int): Tally {
    if times == [] then Tally(None, 0)
    else Tick(TallyOf(times[..|times| - 1], lo, hi, limit, window), times[|times| - 1], lo, hi, limit, window)
  }

  function AdmittedIn(times: seq<int>, lo: int, hi: int, limit: int, window: int): nat {
    TallyOf(times, lo, hi, limit, window).admitted
  }

  lemma {:induction false} TallyBucket(times: seq<int>, lo: int, hi: int, limit: int, window: int)
    ensures TallyOf(times, lo, hi, limit, window).bucket == BucketAfter(times, window)
  {
    if times != [] {
      TallyBucket(times[..|times| - 1], lo, hi, limit, window);
    }
  }

  /** Clock readings in the order in which their requests were counted. A request reads the clock before
      it waits for its turn, so an earlier reading may be counted later, by up to `skew`. */
  ghost predicate Skewed(times: seq<int>, skew: int) {
    forall i, j :: 0 <= i < j < |times| ==> times[i] <= times[j] + skew
  }

  /** How full an interval starting at `lo` can be, by where the current bucket began. */
  ghost predicate BucketBound(tally: Tally, lo: int, limit: int, window: int) {
    tally.bucket.Some? && tally.admitted <= 2 * limit - 1 && tally.bucket.value.count >= 1
    && var bucket := tally.bucket.value;
       var begun, counted := bucket.reset - window, if bucket.count <= limit then bucket.count else limit;
       && (bucket.reset < lo ==> tally.admitted == 0)
       && (begun < lo ==> tally.admitted <= counted - 1)
       && (begun == lo ==> tally.admitted <= counted)
       && (lo < begun <= lo + window + 1 ==> tally.admitted <= limit - 1 + counted)
  }

  /** An interval no longer than the window that, with the skew, exceeds it by one tick at most. */
  predicate Spans(len: int, skew: int, window: int) {
    len <= window && len + skew <= window + 1
  }

  /** A bucket began with a reading that is at most `skew` ahead of the next. */
  lemma TickKeepsBound(tally: Tally, t: int, lo: int, len: int, skew: int, limit: int, window: int)
    requires limit > 0 && skew >= 0 && len >= 0 && Spans(len, skew, window)
    requires tally == Tally(None, 0)
      || (BucketBound(tally, lo, limit, window) && tally.bucket.value.reset - window <= t + skew)
    ensures BucketBound(Tick(tally, t, lo, lo + len, limit, window), lo, limit, window)
  {
  }

  lemma {:induction false} WindowBoundHolds(times: seq<int>, lo: int, len: int, skew: int, limit: int, window: int)
    requires Skewed(times, skew) && limit > 0 && skew >= 0 && len >= 0 && Spans(len, skew, window)
    ensures var tally := TallyOf(times, lo, lo + len, limit, window);
      if times == [] then tally == Tally(None, 0)
      else BucketBound(tally, lo, limit, window) && tally.bucket.value.reset - window in times
  {
    if times != [] {
      var n := |times| - 1;
      WindowBoundHolds(times[..n], lo, len, skew, limit, window);
      assert forall t :: t in times[..n] ==> t <= times[n] + skew;
      TickKeepsBound(TallyOf(times[..n], lo, lo + len, limit, window), times[n], lo, len, skew, limit, window);
    }
  }

  lemma {:induction false} EmptyInterval(times: seq<int>, lo: int, hi: int, limit: int, window: int)
    requires hi < lo
    ensures AdmittedIn(times, lo, hi, limit, window) == 0
  {
    if times != [] {
      EmptyInterval(times[..|times| - 1], lo, hi, limit, window);
    }
  }

  /** Such an interval admits at most 2 * limit - 1 requests of a key: one fewer than two full buckets,
      since two buckets can only share it if the first began before it. */
  lemma SlidingWindowBound(times: seq<int>, lo: int, len: int, skew: int, limit: int, window: int)
    requires Skewed(times, skew) && limit > 0 && skew >= 0 && Spans(len, skew, window)
    ensures AdmittedIn(times, lo, lo + len, limit, window) <= 2 * limit - 1
  {
    if len >= 0 {
      WindowBoundHolds(times, lo, len, skew, limit, window);
    } else {
      EmptyInterval(times, lo, lo + len, limit, window);
    }
  }

  // ---- Within one bucket -----------------------------------------------------------------------

  lemma OneMoreHit(times: seq<int>, t: int, window: int)
    ensures BucketAfter(times + [t], window) == Some(Hit(BucketAfter(times, window), t, window))
  {
  }

  lemma {:induction false} SameBucket(times: seq<int>, more: seq<int>, window: int)
    requires times != [] && forall i :: 0 <= i < |more| ==> more[i] <= BucketAfter(times, window).value.reset
    ensures var before := BucketAfter(times, window).value;
      BucketAfter(times + more, window) == Some(before.(count := before.count + |more|))
  {
    if more == [] {
      assert times + more == times;
    } else {
      var n := |more| - 1;
      assert times + more == times + more[..n] + [more[n]];
      SameBucket(times, more[..n], window);
      OneMoreHit(times + more[..n], more[n], window);
    }
  }

  /** The Remaining header is exact: of the requests that follow before the reset, exactly that many
      are admitted, and they are the first ones. */
  lemma RemainingIsExact(times: seq<int>, more: seq<int>, i: nat, limit: int, window: int)
    requires times != [] && i < |more|
    requires forall j :: 0 <= j < |more| ==> more[j] <= BucketAfter(times, window).value.reset
    ensures var remaining := limit - BucketAfter(times, window).value.count;
      Admits(times + more, |times| + i, limit, window) <==> i < remaining
  {
    assert (times + more)[..|times| + i] == times + more[..i];
    assert (times + more)[|times| + i] == more[i];
    SameBucket(times, more[..i], window);
  }

  lemma TallyOneMore(times: seq<int>, t: int, lo: int, hi: int, limit: int, window: int)
    ensures TallyOf(times + [t], lo, hi, limit, window)
      == Tick(TallyOf(times, lo, hi, limit, window), t, lo, hi, limit, window)
  {
  }

  /** Skewed readings, none above `top`. */
  ghost predicate Below(times: seq<int>, top: int, skew: int) {
    Skewed(times, skew) && forall i :: 0 <= i < |times| ==> times[i] <= top
  }

  function Later(a: int, b: int): int {
    if a <= b then b else a
  }

  lemma OneRequest(times: seq<int>, s: Tally, t: int, top: int, skew: int, lo: int, hi: int, limit: int, window: int)
    returns (longer: seq<int>)
    requires Below(times, top, skew) && top <= t + skew && TallyOf(times, lo, hi, limit, window) == s
    ensures Below(longer, Later(top, t), skew)
    ensures TallyOf(longer, lo, hi, limit, window) == Tick(s, t, lo, hi, limit, window)
  {
    TallyOneMore(times, t, lo, hi, limit, window);
    longer := times + [t];
  }

  /** A burst inside the interval, while its bucket has room. */
  lemma {:induction false} Burst(
    times: seq<int>, s: Tally, t: int, n: nat, top: int, skew: nat, lo: int, hi: int, limit: int, window: int)
    returns (longer: seq<int>)
    requires Below(times, top, skew) && top <= t + skew
    requires TallyOf(times, lo, hi, limit, window) == s && s.bucket.Some?
    requires lo <= t <= hi && t <= s.bucket.value.reset && s.bucket.value.count + n <= limit
    ensures Below(longer, Later(top, t), skew)
    ensures TallyOf(longer, lo, hi, limit, window)
      == Tally(Some(Bucket(s.bucket.value.count + n, s.bucket.value.reset)), s.admitted + n)
  {
    if n == 0 {
      longer := times;
    } else {
      var before := Burst(times, s, t, n - 1, top, skew, lo, hi, limit, window);
      var tally := TallyOf(before, lo, hi, limit, window);
      longer := OneRequest(before, tally, t, Later(top, t), skew, lo, hi, limit, window);
    }
  }

  /** A request that finds no bucket left to count in, and the rest of the limit right after it. */
  lemma FullBucket(times: seq<int>, s: Tally, t: int, top: int, skew: nat, lo: int, hi: int, limit: int, window: int)
    returns (longer: seq<int>)
    requires Below(times, top, skew) && top <= t && TallyOf(times, lo, hi, limit, window) == s
    requires limit > 0 && window >= 0 && lo <= t <= hi && (s.bucket.None? || s.bucket.value.reset < t)
    ensures Below(longer, t, skew)
    ensures TallyOf(longer, lo, hi, limit, window) == Tally(Some(Bucket(limit, t + window)), s.admitted + limit)
  {
    longer := OneRequest(times, s, t, top, skew, lo, hi, limit, window);
    var begun := Tally(Some(Bucket(1, t + window)), s.admitted + 1);
    longer := Burst(longer, begun, t, limit - 1, t, skew, lo, hi, limit, window);
  }

  /** A bucket opened a window before the interval, and filled at the interval's first instant. */
  lemma LateBucket(t: int, skew: nat, hi: int, limit: int, window: int) returns (times: seq<int>)
    requires limit > 0 && window > 0 && t + window <= hi
    ensures Below(times, t + window, skew)
    ensures TallyOf(times, t + window, hi, limit, window) == Tally(Some(Bucket(limit, t + window)), limit - 1)
  {
    var lo := t + window;
    times := OneRequest([], Tally(None, 0), t, t, skew, lo, hi, limit, window);
    times := Burst(times, Tally(Some(Bucket(1, lo)), 0), lo, limit - 1, t, skew, lo, hi, limit, window);
  }

  /** The bound is reached, for every limit and every window of at least one tick: one request opens a
      bucket, the rest of the limit fills it at its last instant, and a full limit follows a tick later. */
  lemma SlidingWindowBoundIsTight(t: int, limit: int, window: int) returns (times: seq<int>)
    requires limit > 0 && window > 0
    ensures Skewed(times, 0) && AdmittedIn(times, t + window, t + 2 * window, limit, window) == 2 * limit - 1
  {
    var lo, hi := t + window, t + 2 * window;
    times := LateBucket(t, 0, hi, limit, window);
    times := FullBucket(times, Tally(Some(Bucket(limit, lo)), limit - 1), lo + 1, lo, 0, lo, hi, limit, window);
  }

  // ---- Exactly when the bound holds ------------------------------------------------------------

  /** In an interval longer than the window, two full buckets begin. */
  lemma LongIntervalExceeds(len: int, limit: int, window: int) returns (times: seq<int>)
    requires limit > 0 && 0 <= window < len
    ensures Skewed(times, 0) && AdmittedIn(times, 0, len, limit, window) == 2 * limit
  {
    times := FullBucket([], Tally(None, 0), 0, 0, 0, 0, len, limit, window);
    times := FullBucket(times, Tally(Some(Bucket(limit, window)), limit), window + 1, 0, 0, 0, len, limit, window);
  }

  /** With enough skew the interval touches three buckets: the end of one, all of the next, and early
      readings that are counted only after the third has begun. */
  lemma SkewExceeds(len: int, skew: nat, limit: int, window: int) returns (times: seq<int>)
    requires limit > 0 && 1 <= len <= window && len + skew > window + 1
    ensures Skewed(times, skew) && AdmittedIn(times, window, window + len, limit, window) == 3 * limit - 2
  {
    var lo, hi, third := window, window + len, 2 * window + 2;
    times := LateBucket(0, skew, hi, limit, window);
    times := FullBucket(times, Tally(Some(Bucket(limit, lo)), limit - 1), lo + 1, lo, skew, lo, hi, limit, window);
    var full := Tally(Some(Bucket(limit, third - 1)), 2 * limit - 1);
    times := OneRequest(times, full, third, lo + 1, skew, lo, hi, limit, window);
    var begun := Tally(Some(Bucket(1, third + window)), 2 * limit - 1);
    times := Burst(times, begun, hi, limit - 1, third, skew, lo, hi, limit, window);
  }

  /** With a limit of one only the requests that begin buckets pass, and no skew brings those closer. */
  lemma {:induction false} SingleRequestBound(times: seq<int>, lo: int, len: int, window: int)
    requires 0 <= len <= window
    ensures var tally := TallyOf(times, lo, lo + len, 1, window);
      tally.admitted <= 1
      && (times == [] ==> tally == Tally(None, 0))
      && (times != [] ==> tally.bucket.Some? && tally.bucket.value.count >= 1
                          && (tally.bucket.value.reset - window < lo ==> tally.admitted == 0))
  {
    if times != [] {
      SingleRequestBound(times[..|times| - 1], lo, len, window);
    }
  }

  ghost predicate KeepsBound(times: seq<int>, lo: int, len: int, limit: int, window: int) {
    AdmittedIn(times, lo, lo + len, limit, window) <= 2 * limit - 1
  }

  ghost predicate AlwaysBounded(len: int, skew: int, limit: int, window: int) {
    forall times, lo :: Skewed(times, skew) ==> KeepsBound(times, lo, len, limit, window)
  }

  /** All traces with readings at most `skew` out of order keep the bound on all intervals of a length
      if and only if that is at most the window, and either the limit is one or the skew fits in the
      rest of the window and one tick. */
  lemma AlwaysBoundedIff(len: int, skew: nat, limit: int, window: int)
    requires limit > 0 && window >= 0 && len >= 1
    ensures AlwaysBounded(len, skew, limit, window)
      <==> len <= window && (limit == 1 || len + skew <= window + 1)
  {
    if len > window {
      var times := LongIntervalExceeds(len, limit, window);
      assert Skewed(times, skew) && !KeepsBound(times, 0, len, limit, window);
    } else if limit > 1 && len + skew > window + 1 {
      var times := SkewExceeds(len, skew, limit, window);
      assert !KeepsBound(times, window, len, limit, window);
    } else {
      forall times, lo | Skewed(times, skew)
        ensures KeepsBound(times, lo, len, limit, window)
      {
        if limit == 1 {
          SingleRequestBound(times, lo, len, window);
        } else {
          SlidingWindowBound(times, lo, len, skew, limit, window);
        }
      }
    }
  }

  // ---- The response headers --------------------------------------------------------------------

  const SECOND := 1_000_000_000

  /** Whole seconds, at least one while any time is left. */
  function DurationSeconds(d: int): int {
    if d <= 0 then 0
    else if d / SECOND <= 0 then 1
    else d / SECOND
  }

  datatype Decision = Decision(allowed: bool, remaining: int, resetIn: int, retryAfter: Option<int>)

  function DecisionOf(bucket: Bucket, now: int, limit: int): Decision {
    var resetIn := DurationSeconds(bucket.reset - now);
    var left := limit - bucket.count;
    Decision(bucket.count <= limit, if left > 0 then left else 0, resetIn,
             if bucket.count <= limit then None else Some(if resetIn > 1 then resetIn else 1))
  }

  /** A refused client that waits exactly Retry-After seconds finds the bucket replaced only if less
      than a second was left: whole seconds are rounded down, and the reset instant still belongs to
      the old bucket. */
  lemma RetryAfterTooEarly(bucket: Bucket, now: int, limit: int)
    requires bucket.count > limit && now <= bucket.reset
    ensures DecisionOf(bucket, now, limit).retryAfter.Some?
    ensures now + DecisionOf(bucket, now, limit).retryAfter.value * SECOND > bucket.reset
      <==> bucket.reset - now < SECOND
  {
    var d := bucket.reset - now;
    assert d / SECOND * SECOND <= d;
  }

  /** A limit of one, a refused second request, and a third that came as late as it was told to. */
  lemma RefusedAgain(start: int, seconds: int)
    requires seconds > 0
    ensures var times, window := [start, start, start + seconds * SECOND], seconds * SECOND;
      DecisionOf(BucketAfter(times[..2], window).value, start, 1).retryAfter == Some(seconds)
      && !Admits(times, 2, 1, window)
  {
    var times, window := [start, start, start + seconds * SECOND], seconds * SECOND;
    assert times[..2][..1] == times[..1] && times[..1][..0] == [];
    assert BucketAfter(times[..0], window) == None;
    assert BucketAfter(times[..1], window) == Some(Bucket(1, start + window));
    assert BucketAfter(times[..2], window) == Some(Bucket(2, start + window));
  }

  /** What a request is told: whether it is one of the first `limit` of its bucket, how many more of them
      the bucket has, the whole seconds left of it, at least one, and if refused, those to wait. */
  lemma DecisionTells(bucket: Bucket, now: int, limit: int)
    ensures var d, left := DecisionOf(bucket, now, limit), bucket.reset - now;
      && (d.allowed <==> bucket.count <= limit)
      && (bucket.count <= limit ==> d.remaining == limit - bucket.count)
      && (bucket.count > limit ==> d.remaining == 0)
      && (left <= 0 ==> d.resetIn == 0)
      && (0 < left < SECOND ==> d.resetIn == 1)
      && (left >= SECOND ==> d.resetIn * SECOND <= left < (d.resetIn + 1) * SECOND)
      && d.retryAfter == if d.allowed then None else if left <= 0 then Some(1) else Some(d.resetIn)
  {
    var left := bucket.reset - now;
    assert left / SECOND * SECOND <= left < (left / SECOND + 1) * SECOND;
  }

  /** The first request after the reset opens a bucket of its own, and is admitted by any limit. */
  lemma ReplacedAfterReset(times: seq<int>, t: int, limit: int, window: int)
    requires times == [] || t > BucketAfter(times, window).value.reset
    ensures BucketAfter(times + [t], window) == Some(Bucket(1, t + window))
    ensures limit > 0 ==> Admits(times + [t], |times|, limit, window)
  {
    assert (times + [t])[..|times|] == times;
  }

  /** The remaining number a request is told is that of the requests before the reset still admitted. */
  lemma RemainingIsTold(times: seq<int>, now: int, more: seq<int>, i: nat, limit: int, window: int)
    requires times != [] && i < |more|
    requires forall j :: 0 <= j < |more| ==> more[j] <= BucketAfter(times, window).value.reset
    ensures Admits(times + more, |times| + i, limit, window)
      <==> i < DecisionOf(BucketAfter(times, window).value, now, limit).remaining
  {
    RemainingIsExact(times, more, i, limit, window);
  }

  // ---- Many keys in one map --------------------------------------------------------------------

  /** rateLimiter.enforce on the bucket map. */
  function Enforce(clients: map<string, Bucket>, ev: Event, window: int): map<string, Bucket> {
    clients[ev.key := Hit(Lookup(clients, ev.key), ev.now, window)]
  }

  function ClientsAfter(events: seq<Event>, window: int): map<string, Bucket> {
    if events == [] then map[]
    else Enforce(ClientsAfter(events[..|events| - 1], window), events[|events| - 1], window)
  }

  function Allowed(clients: map<string, Bucket>, ev: Event, limit: int, window: int): bool {
    limit <= 0 || Enforce(clients, ev, window)[ev.key].count <= limit
  }

  /** The limiter's decision on each event of a trace. */
  function Decisions(events: seq<Event>, limit: int, window: int): seq<bool> {
    if events == [] then []
    else
      var n := |events| - 1;
      Decisions(events[..n], limit, window) + [Allowed(ClientsAfter(events[..n], window), events[n], limit, window)]
  }

  /** The times of one key's events. */
  function Project(events: seq<Event>, key: string): seq<int> {
    if events == [] then []
    else
      var n := |events| - 1;
      if events[n].key == key then Project(events[..n], key) + [events[n].now] else Project(events[..n], key)
  }

  /** The decisions on one key's events, in order. */
  function Select(events: seq<Event>, decisions: seq<bool>, key: string): seq<bool>
    requires |events| == |decisions|
  {
    if events == [] then []
    else
      var n := |events| - 1;
      var before := Select(events[..n], decisions[..n], key);
      if events[n].key == key then before + [decisions[n]] else before
  }

  function AloneDecisions(times: seq<int>, limit: int, window: int): seq<bool> {
    seq(|times|, i requires 0 <= i < |times| => limit <= 0 || Admits(times, i, limit, window))
  }

  lemma {:induction false} DecisionCount(events: seq<Event>, limit: int, window: int)
    ensures |Decisions(events, limit, window)| == |events|
  {
    if events != [] {
      DecisionCount(events[..|events| - 1], limit, window);
    }
  }

  lemma {:induction false} BucketIsProjected(events: seq<Event>, key: string, window: int)
    ensures Lookup(ClientsAfter(events, window), key) == BucketAfter(Project(events, key), window)
  {
    if events != [] {
      var n := |events| - 1;
      BucketIsProjected(events[..n], key, window);
      OneMoreHit(Project(events[..n], key), events[n].now, window);
    }
  }

  lemma AloneOneMore(times: seq<int>, t: int, limit: int, window: int)
    ensures AloneDecisions(times + [t], limit, window)
      == AloneDecisions(times, limit, window)
         + [limit <= 0 || Hit(BucketAfter(times, window), t, window).count <= limit]
  {
    assert forall i :: 0 <= i < |times| ==> (times + [t])[..i] == times[..i];
    assert (times + [t])[..|times|] == times;
  }

  /** The shared map behaves as one independent counter per key: on any interleaving, the decisions on
      a key's requests are those on that key's requests alone. */
  lemma {:induction false} KeysAreIndependent(events: seq<Event>, key: string, limit: int, window: int)
    ensures |Decisions(events, limit, window)| == |events|
    ensures Select(events, Decisions(events, limit, window), key)
      == AloneDecisions(Project(events, key), limit, window)
  {
    DecisionCount(events, limit, window);
    if events != [] {
      var n := |events| - 1;
      KeysAreIndependent(events[..n], key, limit, window);
      assert Decisions(events, limit, window)[..n] == Decisions(events[..n], limit, window);
      if events[n].key == key {
        BucketIsProjected(events[..n], key, window);
        AloneOneMore(Project(events[..n], key), events[n].now, limit, window);
      }
    }
  }

  ghost predicate EventsSkewed(events: seq<Event>, skew: int) {
    forall i, j :: 0 <= i < j < |events| ==> events[i].now <= events[j].now + skew
  }

  lemma {:induction false} ProjectIsBefore(events: seq<Event>, key: string, bound: int)
    requires AllBefore(events, bound)
    ensures forall i :: 0 <= i < |Project(events, key)| ==> Project(events, key)[i] <= bound
  {
    if events != [] {
      ProjectIsBefore(events[..|events| - 1], key, bound);
    }
  }

  lemma {:induction false} ProjectIsSkewed(events: seq<Event>, key: string, skew: int)
    requires EventsSkewed(events, skew)
    ensures Skewed(Project(events, key), skew)
  {
    if events != [] {
      var n := |events| - 1;
      ProjectIsSkewed(events[..n], key, skew);
      ProjectIsBefore(events[..n], key, events[n].now + skew);
    }
  }

  ghost predicate AllBefore(events: seq<Event>, bound: int) {
    forall i :: 0 <= i < |events| ==> events[i].now <= bound
  }

  /** Requests of a key admitted at times in the closed interval, on an interleaved trace. */
  function AdmittedOf(events: seq<Event>, key: string, lo: int, hi: int, limit: int, window: int): nat {
    if events == [] then 0
    else
      var n := |events| - 1;
      AdmittedOf(events[..n], key, lo, hi, limit, window)
      + if events[n].key == key && lo <= events[n].now <= hi
           && Allowed(ClientsAfter(events[..n], window), events[n], limit, window) then 1 else 0
  }

  lemma {:induction false} AdmittedIsProjected(
    events: seq<Event>, key: string, lo: int, hi: int, limit: int, window: int)
    requires limit > 0
    ensures AdmittedOf(events, key, lo, hi, limit, window) == AdmittedIn(Project(events, key), lo, hi, limit, window)
  {
    if events != [] {
      var n := |events| - 1;
      AdmittedIsProjected(events[..n], key, lo, hi, limit, window);
      BucketIsProjected(events[..n], key, window);
      TallyOneMore(Project(events[..n], key), events[n].now, lo, hi, limit, window);
      TallyBucket(Project(events[..n], key), lo, hi, limit, window);
    }
  }

  /** The sliding-window bound for every key of an interleaved trace. */
  lemma EveryKeyIsBounded(events: seq<Event>, key: string, lo: int, len: int, skew: nat, limit: int, window: int)
    requires EventsSkewed(events, skew) && limit > 0 && Spans(len, skew, window)
    ensures AdmittedOf(events, key, lo, lo + len, limit, window) <= 2 * limit - 1
  {
    AdmittedIsProjected(events, key, lo, lo + len, limit, window);
    ProjectIsSkewed(events, key, skew);
    SlidingWindowBound(Project(events, key), lo, len, skew, limit, window);
  }
}
