/**
 The two fixed-window limiters: the request middleware, whose window is closed at its end and which counts refused
 requests too, and the token endpoint's, whose window is half-open and which does not. Times are milliseconds.
 */
module RateLimit {
  import opened Wrappers

  const WINDOW := 60000
  const TOKEN_LIMIT := 10

  datatype Kind = Middleware | TokenEndpoint

  datatype Window = Window(count: int, resetAt: int)

  type Store = map<string, Window>

  predicate Live(kind: Kind, w: Window, now: int) {
    match kind
    case Middleware => now <= w.resetAt
    case TokenEndpoint => now < w.resetAt
  }

  function Entry(s: Store, ip: string): Option<Window> {
    if ip in s then Some(s[ip]) else None
  }

  /** The window after a request, and whether the request is let through. */
  function Admit(kind: Kind, limit: int, entry: Option<Window>, now: int): (Window, bool) {
    if entry.None? || !Live(kind, entry.value, now) then (Window(1, now + WINDOW), true)
    else
      var w := entry.value;
      match kind
      case Middleware => (w.(count := w.count + 1), w.count + 1 <= limit)
      case TokenEndpoint => if w.count >= limit then (w, false) else (w.(count := w.count + 1), true)
  }

  function Swept(kind: Kind, s: Store, now: int): Store {
    map ip | ip in s && Live(kind, s[ip], now) :: s[ip]
  }

  datatype Event = Hit(ip: string, now: int) | Sweep(now: int)

  function Step(kind: Kind, limit: int, s: Store, e: Event): Store {
    match e
    case Hit(ip, now) => s[ip := Admit(kind, limit, Entry(s, ip), now).0]
    case Sweep(now) => Swept(kind, s, now)
  }

  /** The verdicts on the requests of a run, in order. */
  function Verdicts(kind: Kind, limit: int, s: Store, events: seq<Event>): seq<bool>
    decreases |events|
  {
    if events == [] then []
    else
      var e := events[0];
      (if e.Hit? then [Admit(kind, limit, Entry(s, e.ip), e.now).1] else [])
      + Verdicts(kind, limit, Step(kind, limit, s, e), events[1..])
  }

  /** The clock starts at or after `clock` and never goes back. */
  predicate Monotone(events: seq<Event>, clock: int)
    decreases |events|
  {
    events != [] ==> clock <= events[0].now && Monotone(events[1..], events[0].now)
  }

  function Hits(events: seq<Event>): seq<Event> {
    if events == [] then [] else (if events[0].Hit? then [events[0]] else []) + Hits(events[1..])
  }

  // ---- Sweeps ----

  /** The stores agree except that one may lack windows that are over. */
  ghost predicate SameLive(kind: Kind, swept: Store, full: Store, clock: int) {
    forall ip :: Entry(swept, ip) == Entry(full, ip)
              || (ip !in swept && ip in full && !Live(kind, full[ip], clock))
  }

  lemma {:induction false} SweptRunAgrees(kind: Kind, limit: int, swept: Store, full: Store, events: seq<Event>, clock: int)
    requires Monotone(events, clock) && SameLive(kind, swept, full, clock)
    ensures Verdicts(kind, limit, swept, events) == Verdicts(kind, limit, full, Hits(events))
    decreases |events|
  {
    if events != [] {
      var e := events[0];
      var next := Step(kind, limit, swept, e);
      match e
      case Hit(ip, now) =>
        var fullNext := Step(kind, limit, full, e);
        assert Admit(kind, limit, Entry(swept, ip), now) == Admit(kind, limit, Entry(full, ip), now);
        assert SameLive(kind, next, fullNext, now);
        SweptRunAgrees(kind, limit, next, fullNext, events[1..], now);
        assert Hits(events)[1..] == Hits(events[1..]);
      case Sweep(now) =>
        assert SameLive(kind, next, full, now);
        SweptRunAgrees(kind, limit, next, full, events[1..], now);
        assert Hits(events) == Hits(events[1..]);
    }
  }

  /** Sweeps are unobservable: wherever they are inserted, every request gets the verdict it gets without them. */
  lemma SweepsAreUnobservable(kind: Kind, limit: int, s: Store, events: seq<Event>, clock: int)
    requires Monotone(events, clock)
    ensures Verdicts(kind, limit, s, events) == Verdicts(kind, limit, s, Hits(events))
  {
    SweptRunAgrees(kind, limit, s, s, events, clock);
  }

  // ---- The rate bound ----

  predicate Inside(now: int, from: int) {
    from <= now < from + 60000
  }

  predicate Counts(kind: Kind, limit: int, s: Store, e: Event, ip: string, from: int) {
    e.Hit? && e.ip == ip && Inside(e.now, from) && Admit(kind, limit, Entry(s, ip), e.now).1
  }

  /** How many requests from `ip` are let through in the 60000 milliseconds starting at `from`. */
  function Admitted(kind: Kind, limit: int, s: Store, events: seq<Event>, ip: string, from: int): int
    decreases |events|
  {
    if events == [] then 0
    else
      (if Counts(kind, limit, s, events[0], ip, from) then 1 else 0)
      + Admitted(kind, limit, Step(kind, limit, s, events[0]), events[1..], ip, from)
  }

  function Max(a: int, b: int): int { if a < b then b else a }

  /** What the interval can still admit, given the window in force and the clock. */
  function Budget(kind: Kind, limit: int, entry: Option<Window>, clock: int, from: int): int {
    if from + WINDOW <= clock then 0
    else if entry.Some? && Live(kind, entry.value, Max(clock, from)) then
      var left := limit - (if entry.value.count < limit then entry.value.count else limit);
      if from <= entry.value.resetAt - WINDOW then left else left + limit
    else if from <= clock then limit
    else 2 * limit - 1
  }

  lemma HitSpendsBudget(kind: Kind, limit: int, entry: Option<Window>, now: int, clock: int, from: int)
    requires 1 <= limit && clock <= now && (entry.Some? ==> 1 <= entry.value.count)
    ensures var (w, admitted) := Admit(kind, limit, entry, now);
      && 1 <= w.count
      && (if admitted && Inside(now, from) then 1 else 0) + Budget(kind, limit, Some(w), now, from)
         <= Budget(kind, limit, entry, clock, from)
  {
  }

  lemma TimeSpendsBudget(kind: Kind, limit: int, entry: Option<Window>, now: int, clock: int, from: int)
    requires 1 <= limit && clock <= now && (entry.Some? ==> 1 <= entry.value.count)
    ensures Budget(kind, limit, entry, now, from) <= Budget(kind, limit, entry, clock, from)
    ensures entry.Some? && !Live(kind, entry.value, now) ==>
      Budget(kind, limit, None, now, from) <= Budget(kind, limit, entry, clock, from)
    ensures 0 <= Budget(kind, limit, entry, now, from)
  {
  }

  lemma {:induction false} AdmittedWithinBudget(
    kind: Kind, limit: int, s: Store, events: seq<Event>, clock: int, ip: string, from: int)
    requires 1 <= limit && Monotone(events, clock) && forall k :: k in s ==> 1 <= s[k].count
    ensures Admitted(kind, limit, s, events, ip, from) <= Budget(kind, limit, Entry(s, ip), clock, from)
    decreases |events|
  {
    TimeSpendsBudget(kind, limit, Entry(s, ip), clock, clock, from);
    if events != [] {
      var e := events[0];
      var next := Step(kind, limit, s, e);
      if e.Hit? {
        HitSpendsBudget(kind, limit, Entry(s, e.ip), e.now, clock, from);
      }
      TimeSpendsBudget(kind, limit, Entry(s, ip), e.now, clock, from);
      AdmittedWithinBudget(kind, limit, next, events[1..], e.now, ip, from);
    }
  }

  /**
   The rate bound, for either limiter: in any half-open minute at most 2 * limit - 1 requests of one address are let
   through, whatever the traffic and wherever sweeps run.
   */
  lemma RateBound(kind: Kind, limit: int, events: seq<Event>, clock: int, ip: string, from: int)
    requires 1 <= limit && Monotone(events, clock)
    ensures Admitted(kind, limit, map[], events, ip, from) <= 2 * limit - 1
  {
    AdmittedWithinBudget(kind, limit, map[], events, clock, ip, from);
  }

  // ---- No refusal without cause ----

  function StoreAfter(kind: Kind, limit: int, s: Store, events: seq<Event>): Store
    decreases |events|
  {
    if events == [] then s else StoreAfter(kind, limit, Step(kind, limit, s, events[0]), events[1..])
  }

  /** The requests of one address at or after a moment. */
  function RequestsSince(events: seq<Event>, ip: string, from: int): nat {
    if events == [] then 0
    else
      RequestsSince(events[..|events| - 1], ip, from)
      + (if events[|events| - 1].Hit? && events[|events| - 1].ip == ip && from <= events[|events| - 1].now then 1 else 0)
  }

  lemma RequestsOfSnoc(events: seq<Event>, e: Event, ip: string, from: int)
    ensures RequestsSince(events + [e], ip, from)
         == RequestsSince(events, ip, from) + if e.Hit? && e.ip == ip && from <= e.now then 1 else 0
  {
    assert (events + [e])[..|events|] == events;
  }

  lemma {:induction false} FewerSinceLater(events: seq<Event>, ip: string, from: int, later: int)
    requires from <= later
    ensures RequestsSince(events, ip, later) <= RequestsSince(events, ip, from)
  {
    if events != [] {
      FewerSinceLater(events[..|events| - 1], ip, from, later);
    }
  }

  /** A window counts no more than the requests of its own address since it opened, which was in the past. */
  ghost predicate CountsRequests(s: Store, past: seq<Event>, clock: int) {
    forall ip :: ip in s ==>
      s[ip].count <= RequestsSince(past, ip, s[ip].resetAt - 60000) && s[ip].resetAt - 60000 <= clock
  }

  lemma StepCountsRequests(kind: Kind, limit: int, s: Store, past: seq<Event>, e: Event, clock: int)
    requires CountsRequests(s, past, clock) && clock <= e.now
    ensures CountsRequests(Step(kind, limit, s, e), past + [e], e.now)
  {
    var t := Step(kind, limit, s, e);
    forall ip | ip in t ensures t[ip].count <= RequestsSince(past + [e], ip, t[ip].resetAt - 60000) {
      RequestsOfSnoc(past, e, ip, t[ip].resetAt - 60000);
    }
  }

  lemma {:induction false} RunCountsRequests(
    kind: Kind, limit: int, s: Store, past: seq<Event>, events: seq<Event>, clock: int, now: int)
    requires CountsRequests(s, past, clock) && Monotone(events, clock)
    requires clock <= now && forall e :: e in events ==> e.now <= now
    ensures CountsRequests(StoreAfter(kind, limit, s, events), past + events, now)
    decreases |events|
  {
    if events == [] {
      assert past + events == past;
    } else {
      assert events[0] in events;
      assert forall e :: e in events[1..] ==> e in events;
      StepCountsRequests(kind, limit, s, past, events[0], clock);
      RunCountsRequests(kind, limit, Step(kind, limit, s, events[0]), past + [events[0]], events[1..], events[0].now, now);
      assert past + [events[0]] + events[1..] == past + events;
    }
  }

  /**
   The other side of the bound: whoever is refused made at least `limit` requests of its own in the 60000 milliseconds
   before, whatever other addresses did.
   */
  lemma RefusedOnlyWhenBusy(kind: Kind, limit: int, events: seq<Event>, clock: int, ip: string, now: int)
    requires Monotone(events, clock) && clock <= now && forall e :: e in events ==> e.now <= now
    ensures !Admit(kind, limit, Entry(StoreAfter(kind, limit, map[], events), ip), now).1 ==>
      RequestsSince(events, ip, now - 60000) >= limit
  {
    StoreCountsRequests(kind, limit, events, clock, now);
    BusyIfRefused(kind, limit, StoreAfter(kind, limit, map[], events), events, ip, now);
  }

  lemma StoreCountsRequests(kind: Kind, limit: int, events: seq<Event>, clock: int, now: int)
    requires Monotone(events, clock) && clock <= now && forall e :: e in events ==> e.now <= now
    ensures CountsRequests(StoreAfter(kind, limit, map[], events), events, now)
  {
    assert CountsRequests(map[], [], clock);
    RunCountsRequests(kind, limit, map[], [], events, clock, now);
    assert [] + events == events;
  }

  lemma BusyIfRefused(kind: Kind, limit: int, s: Store, past: seq<Event>, ip: string, now: int)
    requires CountsRequests(s, past, now)
    ensures !Admit(kind, limit, Entry(s, ip), now).1 ==> RequestsSince(past, ip, now - 60000) >= limit
  {
    if ip in s && Live(kind, s[ip], now) {
      FewerSinceLater(past, ip, now - 60000, s[ip].resetAt - 60000);
    }
  }

  /** The token endpoint lets ten attempts through: nobody with fewer in a minute is refused, and nobody gets twenty. */
  lemma TokenEndpointBounds(events: seq<Event>, clock: int, ip: string, now: int, from: int)
    requires Monotone(events, clock) && clock <= now && forall e :: e in events ==> e.now <= now
    ensures Admitted(TokenEndpoint, TOKEN_LIMIT, map[], events, ip, from) < 20
    ensures !Admit(TokenEndpoint, TOKEN_LIMIT, Entry(StoreAfter(TokenEndpoint, TOKEN_LIMIT, map[], events), ip), now).1 ==>
      RequestsSince(events, ip, now - 60000) >= 10
  {
    RateBound(TokenEndpoint, TOKEN_LIMIT, events, clock, ip, from);
    RefusedOnlyWhenBusy(TokenEndpoint, TOKEN_LIMIT, events, clock, ip, now);
  }

  lemma {:induction false} RunKeepsCountsPositive(kind: Kind, limit: int, s: Store, events: seq<Event>)
    requires forall ip :: ip in s ==> s[ip].count >= 1
    ensures forall ip :: ip in StoreAfter(kind, limit, s, events) ==> StoreAfter(kind, limit, s, events)[ip].count >= 1
    decreases |events|
  {
    if events != [] {
      RunKeepsCountsPositive(kind, limit, Step(kind, limit, s, events[0]), events[1..]);
    }
  }

  /** What sweeping is for: it leaves an entry only for addresses that sent a request in the last 60000 milliseconds. */
  lemma SweepKeepsRecentOnly(kind: Kind, limit: int, events: seq<Event>, clock: int, ip: string, now: int)
    requires Monotone(events, clock) && clock <= now && forall e :: e in events ==> e.now <= now
    requires ip in Step(kind, limit, StoreAfter(kind, limit, map[], events), Sweep(now))
    ensures RequestsSince(events, ip, now - 60000) >= 1
  {
    var s := StoreAfter(kind, limit, map[], events);
    StoreCountsRequests(kind, limit, events, clock, now);
    RunKeepsCountsPositive(kind, limit, map[], events);
    FewerSinceLater(events, ip, now - 60000, s[ip].resetAt - 60000);
  }

  // ---- The bound is sharp ----

  /** The last millisecond of a window opened at 0. */
  function LastMoment(kind: Kind): int {
    match kind
    case Middleware => WINDOW
    case TokenEndpoint => WINDOW - 1
  }

  function Repeat(ip: string, now: int, n: nat): seq<Event> {
    seq(n, _ => Hit(ip, now))
  }

  /** One request opens a window, the rest come at its last moment, and a full limit right after. */
  function Burst(kind: Kind, limit: nat, ip: string): seq<Event>
    requires 1 <= limit
  {
    [Hit(ip, 0)] + Repeat(ip, LastMoment(kind), limit - 1) + Repeat(ip, LastMoment(kind) + 1, limit)
  }

  lemma {:induction false} RepeatsAreAdmitted(kind: Kind, limit: int, s: Store, ip: string, now: int, n: nat, rest: seq<Event>)
    requires ip in s && Live(kind, s[ip], now) && s[ip].count + n <= limit && Inside(now, LastMoment(kind))
    ensures Admitted(kind, limit, s, Repeat(ip, now, n) + rest, ip, LastMoment(kind))
         == n + Admitted(kind, limit, s[ip := s[ip].(count := s[ip].count + n)], rest, ip, LastMoment(kind))
    decreases n
  {
    var events := Repeat(ip, now, n) + rest;
    if n == 0 {
      assert events == rest && s[ip := s[ip].(count := s[ip].count + n)] == s;
    } else {
      assert events[0] == Hit(ip, now) && events[1..] == Repeat(ip, now, n - 1) + rest;
      var next := Step(kind, limit, s, events[0]);
      RepeatsAreAdmitted(kind, limit, next, ip, now, n - 1, rest);
      assert next[ip := next[ip].(count := next[ip].count + (n - 1))] == s[ip := s[ip].(count := s[ip].count + n)];
    }
  }

  lemma RateBoundIsSharp(kind: Kind, limit: nat, ip: string)
    requires 1 <= limit
    ensures Admitted(kind, limit, map[], Burst(kind, limit, ip), ip, LastMoment(kind)) == 2 * limit - 1
  {
    var events := Burst(kind, limit, ip);
    var late := LastMoment(kind) + 1;
    var s1: Store := map[ip := Window(1, WINDOW)];
    var tail := Repeat(ip, late, limit);
    assert events[0] == Hit(ip, 0) && events[1..] == Repeat(ip, LastMoment(kind), limit - 1) + tail;
    assert Step(kind, limit, map[], events[0]) == s1;
    RepeatsAreAdmitted(kind, limit, s1, ip, LastMoment(kind), limit - 1, tail);
    var s2: Store := map[ip := Window(limit, WINDOW)];
    assert s1[ip := s1[ip].(count := s1[ip].count + (limit - 1))] == s2;
    var s3: Store := map[ip := Window(1, late + WINDOW)];
    assert tail[0] == Hit(ip, late) && tail[1..] == Repeat(ip, late, limit - 1);
    assert Step(kind, limit, s2, tail[0]) == s3;
    assert Repeat(ip, late, limit - 1) + [] == Repeat(ip, late, limit - 1);
    RepeatsAreAdmitted(kind, limit, s3, ip, late, limit - 1, []);
  }

  // ---- The objects ----

  /** The middleware's module-level store. */
  class RequestLimiter {
    const limit: int
    var store: Store

    constructor (limit: int)
      ensures this.limit == limit && store == map[]
    {
      this.limit, store := limit, map[];
    }

    method Handle(ip: string, now: int) returns (admitted: bool)
      modifies this
      ensures store == Step(Middleware, limit, old(store), Hit(ip, now))
      ensures admitted == Admit(Middleware, limit, Entry(old(store), ip), now).1
    {
      if ip !in store || now > store[ip].resetAt {
        store := store[ip := Window(1, now + WINDOW)];
        return true;
      }
      var entry := store[ip];
      store := store[ip := entry.(count := entry.count + 1)];
      if entry.count + 1 > limit {
        return false;
      }
      return true;
    }

    /** The five-minute cleanup. */
    method Cleanup(now: int)
      modifies this
      ensures store == Step(Middleware, limit, old(store), Sweep(now))
    {
      var keys := store.Keys;
      while keys != {}
        invariant keys <= store.Keys <= old(store).Keys
        invariant forall k :: k in store ==> store[k] == old(store)[k]
        invariant forall k :: k in old(store) ==> (k in store <==> k in keys || now <= old(store)[k].resetAt)
        decreases keys
      {
        var key :| key in keys;
        if now > store[key].resetAt {
          store := store - {key};
        }
        keys := keys - {key};
      }
    }
  }

  /** The token endpoint's rate map. */
  class TokenLimiter {
    var store: Store

    constructor ()
      ensures store == map[]
    {
      store := map[];
    }

    method Check(ip: string, now: int) returns (admitted: bool)
      modifies this
      ensures store == Step(TokenEndpoint, TOKEN_LIMIT, old(store), Hit(ip, now))
      ensures admitted == Admit(TokenEndpoint, TOKEN_LIMIT, Entry(old(store), ip), now).1
    {
      if ip !in store || now >= store[ip].resetAt {
        store := store[ip := Window(1, now + WINDOW)];
        return true;
      }
      var entry := store[ip];
      if entry.count >= TOKEN_LIMIT {
        return false;
      }
      store := store[ip := entry.(count := entry.count + 1)];
      return true;
    }
  }
}
