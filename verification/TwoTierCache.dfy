/**
 `cacheGet` and `cacheSet` over the memory tier and Redis, cut at their awaits: any number of calls can be waiting on
 Redis, and other calls run in between. Other server processes set keys in the same Redis, and this one can restart.
 Times are milliseconds on one clock; `ttlSeconds` is the one TTL both tiers use.
 */
module TwoTierCache {
  import opened Wrappers
  import opened MemoryCache

  datatype Config = Config(maxItems: int, ttlSeconds: nat, redisConnected: bool) {
    function Ttl(): nat { ttlSeconds * 1000 }
  }

  /** What a call is waiting for: a reply, the continuation that refills memory with one, or a Redis write. */
  datatype Pending =
    | AwaitReply(key: string)
    | Replied(key: string, value: Value, readAt: int)
    | AwaitWrite(key: string, value: Value, startedAt: int)

  /** One `cacheSet`, as history. */
  datatype Write = Write(key: string, value: Value, at: int)

  /**
   Redis holds a key until, not including, its expiry. `pending` also holds the other processes' Redis writes, and
   `writes`, the history the results speak about, their `cacheSet`s.
   */
  datatype State = State(mem: Store, redis: map<string, Entry>, pending: map<nat, Pending>, writes: seq<Write>)

  const INITIAL := State(EMPTY, map[], map[], [])

  datatype Event =
    | Lookup(id: nat, key: string, now: int)
    | RedisGet(id: nat, ok: bool, now: int)
    | Refill(id: nat, now: int)
    | Save(id: nat, key: string, value: Value, now: int)
    | RedisSet(id: nat, ok: bool, now: int)
    | RemoteSave(id: nat, key: string, value: Value, now: int)
    | Restart(lost: set<nat>)

  /** Calls are told apart by fresh ids, and a continuation runs only for the call that waits for it. */
  predicate Enabled(s: State, e: Event) {
    match e
    case Lookup(id, _, _) => id !in s.pending
    case Save(id, _, _, _) => id !in s.pending
    case RemoteSave(id, _, _, _) => id !in s.pending
    case Restart(_) => true
    case RedisGet(id, _, _) => id in s.pending && s.pending[id].AwaitReply?
    case Refill(id, _) => id in s.pending && s.pending[id].Replied?
    case RedisSet(id, _, _) => id in s.pending && s.pending[id].AwaitWrite?
  }

  /** The key a call is about; a restart has none. */
  function KeyOf(s: State, e: Event): string
    requires Enabled(s, e)
  {
    match e
    case Lookup(_, key, _) => key
    case Save(_, key, _, _) => key
    case RemoteSave(_, key, _, _) => key
    case Restart(_) => ""
    case RedisGet(id, _, _) => s.pending[id].key
    case Refill(id, _) => s.pending[id].key
    case RedisSet(id, _, _) => s.pending[id].key
  }

  /** The next state, and the value the event makes `cacheGet` return, Null for none. */
  function Step(c: Config, s: State, e: Event): (State, Value)
    requires Enabled(s, e)
  {
    match e
    case Lookup(id, key, now) =>
      var (mem, value) := Get(s.mem, key, now);
      if value != Null then (s.(mem := mem), value)
      else if c.redisConnected then (s.(mem := mem, pending := s.pending[id := AwaitReply(key)]), Null)
      else (s.(mem := mem), Null)
    case RedisGet(id, ok, now) =>
      var key := s.pending[id].key;
      if ok && key in s.redis && now < s.redis[key].expiresAt then
        (s.(pending := s.pending[id := Replied(key, s.redis[key].value, now)]), Null)
      else (s.(pending := s.pending - {id}), Null)
    case Refill(id, now) =>
      var reply := s.pending[id];
      (s.(mem := Set(s.mem, c.maxItems, reply.key, reply.value, c.ttlSeconds, now), pending := s.pending - {id}),
       reply.value)
    case Save(id, key, value, now) =>
      (State(Set(s.mem, c.maxItems, key, value, c.ttlSeconds, now), s.redis,
             if c.redisConnected then s.pending[id := AwaitWrite(key, value, now)] else s.pending,
             s.writes + [Write(key, value, now)]), Null)
    case RedisSet(id, ok, now) =>
      var write := s.pending[id];
      (s.(redis := if ok then s.redis[write.key := Entry(write.value, now + c.Ttl())] else s.redis,
          pending := s.pending - {id}), Null)
    case RemoteSave(id, key, value, now) =>
      (s.(pending := s.pending[id := AwaitWrite(key, value, now)], writes := s.writes + [Write(key, value, now)]), Null)
    case Restart(lost) => (s.(mem := EMPTY, pending := s.pending - lost), Null)
  }

  /** The longest a continuation trails behind Redis is `delay`. */
  predicate Timely(s: State, e: Event, delay: nat)
    requires Enabled(s, e)
  {
    match e
    case Refill(id, now) => now <= s.pending[id].readAt + delay
    case RedisSet(id, _, now) => now <= s.pending[id].startedAt + delay
    case _ => true
  }

  predicate Possible(c: Config, s: State, events: seq<Event>, delay: nat)
    decreases |events|
  {
    events != [] ==>
      && Enabled(s, events[0]) && Timely(s, events[0], delay)
      && Possible(c, Step(c, s, events[0]).0, events[1..], delay)
  }

  function Run(c: Config, s: State, events: seq<Event>, delay: nat): State
    requires Possible(c, s, events, delay)
    decreases |events|
  {
    if events == [] then s else Run(c, Step(c, s, events[0]).0, events[1..], delay)
  }

  /** Some `cacheSet` of this value for this key happened after `after`. */
  ghost predicate WrittenAfter(writes: seq<Write>, key: string, value: Value, after: int) {
    exists w :: w in writes && w.key == key && w.value == value && after < w.at
  }

  ghost predicate MemBounded(c: Config, writes: seq<Write>, entries: map<string, Entry>, delay: nat) {
    forall k :: k in entries ==>
      WrittenAfter(writes, k, entries[k].value, entries[k].expiresAt - 2 * c.Ttl() - 2 * delay)
  }

  ghost predicate RedisBounded(c: Config, writes: seq<Write>, entries: map<string, Entry>, delay: nat) {
    forall k :: k in entries ==> WrittenAfter(writes, k, entries[k].value, entries[k].expiresAt - c.Ttl() - delay - 1)
  }

  ghost predicate PendingBounded(c: Config, writes: seq<Write>, p: Pending, delay: nat) {
    match p
    case AwaitReply(_) => true
    case Replied(key, value, readAt) => WrittenAfter(writes, key, value, readAt - c.Ttl() - delay)
    case AwaitWrite(key, value, startedAt) => WrittenAfter(writes, key, value, startedAt - 1)
  }

  ghost predicate Bounded(c: Config, s: State, delay: nat) {
    && MemBounded(c, s.writes, s.mem.entries, delay)
    && RedisBounded(c, s.writes, s.redis, delay)
    && forall id :: id in s.pending ==> PendingBounded(c, s.writes, s.pending[id], delay)
  }

  lemma WrittenEarlier(writes: seq<Write>, more: seq<Write>, key: string, value: Value, after: int, earlier: int)
    requires WrittenAfter(writes, key, value, after) && earlier <= after
    ensures WrittenAfter(writes + more, key, value, earlier)
  {
    var w :| w in writes && w.key == key && w.value == value && after < w.at;
    assert w in writes + more;
  }

  lemma MoreWrites(c: Config, s: State, write: Write, delay: nat)
    requires Bounded(c, s, delay)
    ensures Bounded(c, s.(writes := s.writes + [write]), delay)
  {
    var t := s.(writes := s.writes + [write]);
    forall k | k in s.mem.entries
      ensures WrittenAfter(t.writes, k, s.mem.entries[k].value, s.mem.entries[k].expiresAt - 2 * c.Ttl() - 2 * delay)
    {
      var after := s.mem.entries[k].expiresAt - 2 * c.Ttl() - 2 * delay;
      WrittenEarlier(s.writes, [write], k, s.mem.entries[k].value, after, after);
    }
    forall k | k in s.redis
      ensures WrittenAfter(t.writes, k, s.redis[k].value, s.redis[k].expiresAt - c.Ttl() - delay - 1)
    {
      var after := s.redis[k].expiresAt - c.Ttl() - delay - 1;
      WrittenEarlier(s.writes, [write], k, s.redis[k].value, after, after);
    }
    forall id | id in s.pending ensures PendingBounded(c, t.writes, s.pending[id], delay) {
      PendingKept(c, s.writes, write, s.pending[id], delay);
    }
  }

  lemma PendingKept(c: Config, writes: seq<Write>, write: Write, p: Pending, delay: nat)
    requires PendingBounded(c, writes, p, delay)
    ensures PendingBounded(c, writes + [write], p, delay)
  {
    match p
    case AwaitReply(_) =>
    case Replied(key, value, readAt) =>
      WrittenEarlier(writes, [write], key, value, readAt - c.Ttl() - delay, readAt - c.Ttl() - delay);
    case AwaitWrite(key, value, startedAt) =>
      WrittenEarlier(writes, [write], key, value, startedAt - 1, startedAt - 1);
  }

  /** A memory set adds one entry and keeps, or evicts, the others. */
  lemma SetKeepsBound(c: Config, mem: Store, writes: seq<Write>, key: string, value: Value, now: int, delay: nat)
    requires MemBounded(c, writes, mem.entries, delay)
    requires WrittenAfter(writes, key, value, now - c.Ttl() - 2 * delay)
    ensures MemBounded(c, writes, Set(mem, c.maxItems, key, value, c.ttlSeconds, now).entries, delay)
  {
    var t := Set(mem, c.maxItems, key, value, c.ttlSeconds, now);
    assert t.entries[key] == Entry(value, now + c.Ttl());
    assert forall k :: k in t.entries && k != key ==> k in mem.entries && t.entries[k] == mem.entries[k];
  }

  lemma SaveKeepsBounded(c: Config, s: State, e: Event, delay: nat)
    requires c.ttlSeconds >= 1 && Bounded(c, s, delay) && e.Save? && Enabled(s, e)
    ensures Bounded(c, Step(c, s, e).0, delay)
  {
    var t := Step(c, s, e).0;
    var write := Write(e.key, e.value, e.now);
    MoreWrites(c, s, write, delay);
    assert write in t.writes;
    assert WrittenAfter(t.writes, e.key, e.value, e.now - 1);
    SetKeepsBound(c, s.mem, t.writes, e.key, e.value, e.now, delay);
    forall id | id in t.pending ensures PendingBounded(c, t.writes, t.pending[id], delay) {
    }
  }

  lemma RemoteSaveKeepsBounded(c: Config, s: State, e: Event, delay: nat)
    requires Bounded(c, s, delay) && e.RemoteSave? && Enabled(s, e)
    ensures Bounded(c, Step(c, s, e).0, delay)
  {
    var t := Step(c, s, e).0;
    var write := Write(e.key, e.value, e.now);
    MoreWrites(c, s, write, delay);
    assert write in t.writes;
    assert WrittenAfter(t.writes, e.key, e.value, e.now - 1);
  }

  lemma RedisGetKeepsBounded(c: Config, s: State, e: Event, delay: nat)
    requires Bounded(c, s, delay) && e.RedisGet? && Enabled(s, e)
    ensures Bounded(c, Step(c, s, e).0, delay)
  {
    var key := s.pending[e.id].key;
    if e.ok && key in s.redis && e.now < s.redis[key].expiresAt {
      assert s.writes + [] == s.writes;
      WrittenEarlier(s.writes, [], key, s.redis[key].value, s.redis[key].expiresAt - c.Ttl() - delay - 1,
                     e.now - c.Ttl() - delay);
    }
  }

  lemma RefillKeepsBounded(c: Config, s: State, e: Event, delay: nat)
    requires Bounded(c, s, delay) && e.Refill? && Enabled(s, e) && Timely(s, e, delay)
    ensures Bounded(c, Step(c, s, e).0, delay)
  {
    var p := s.pending[e.id];
    assert s.writes + [] == s.writes && PendingBounded(c, s.writes, p, delay);
    WrittenEarlier(s.writes, [], p.key, p.value, p.readAt - c.Ttl() - delay, e.now - c.Ttl() - 2 * delay);
    SetKeepsBound(c, s.mem, s.writes, p.key, p.value, e.now, delay);
  }

  lemma RedisSetKeepsBounded(c: Config, s: State, e: Event, delay: nat)
    requires Bounded(c, s, delay) && e.RedisSet? && Enabled(s, e) && Timely(s, e, delay)
    ensures Bounded(c, Step(c, s, e).0, delay)
  {
    var p := s.pending[e.id];
    assert s.writes + [] == s.writes && PendingBounded(c, s.writes, p, delay);
    WrittenEarlier(s.writes, [], p.key, p.value, p.startedAt - 1, e.now - delay - 1);
  }

  lemma StepKeepsBounded(c: Config, s: State, e: Event, delay: nat)
    requires c.ttlSeconds >= 1 && Bounded(c, s, delay) && Enabled(s, e) && Timely(s, e, delay)
    ensures Bounded(c, Step(c, s, e).0, delay)
  {
    match e
    case Lookup(_, _, _) =>
    case Save(_, _, _, _) => SaveKeepsBounded(c, s, e, delay);
    case RemoteSave(_, _, _, _) => RemoteSaveKeepsBounded(c, s, e, delay);
    case Restart(_) =>
    case RedisGet(_, _, _) => RedisGetKeepsBounded(c, s, e, delay);
    case Refill(_, _) => RefillKeepsBounded(c, s, e, delay);
    case RedisSet(_, _, _) => RedisSetKeepsBounded(c, s, e, delay);
  }

  lemma {:induction false} RunKeepsBounded(c: Config, s: State, events: seq<Event>, delay: nat)
    requires c.ttlSeconds >= 1 && Bounded(c, s, delay) && Possible(c, s, events, delay)
    ensures Bounded(c, Run(c, s, events, delay), delay)
    decreases |events|
  {
    if events != [] {
      StepKeepsBounded(c, s, events[0], delay);
      RunKeepsBounded(c, Step(c, s, events[0]).0, events[1..], delay);
    }
  }

  /**
   The staleness bound: in every interleaving, a value `cacheGet` returns for a key was written for that key by some
   `cacheSet` of any process less than two TTLs, plus two Redis delays, ago. Memory restarts the TTL of what it reads from Redis,
   and nothing restarts it again.
   */
  lemma StalenessBound(c: Config, events: seq<Event>, e: Event, delay: nat)
    requires c.ttlSeconds >= 1
    requires Possible(c, INITIAL, events, delay)
    requires var s := Run(c, INITIAL, events, delay); Enabled(s, e) && Timely(s, e, delay)
    ensures var s := Run(c, INITIAL, events, delay); var value := Step(c, s, e).1;
      value != Null ==>
        WrittenAfter(s.writes, KeyOf(s, e), value,
                     e.now - 2 * 1000 * c.ttlSeconds - 2 * delay)
  {
    RunKeepsBounded(c, INITIAL, events, delay);
    var s := Run(c, INITIAL, events, delay);
    assert s.writes + [] == s.writes;
    if Step(c, s, e).1 != Null {
      if e.Lookup? {
        var entry := s.mem.entries[e.key];
        WrittenEarlier(s.writes, [], e.key, entry.value, entry.expiresAt - 2 * c.Ttl() - 2 * delay,
                       e.now - 2 * c.Ttl() - 2 * delay);
      } else {
        var p := s.pending[e.id];
        assert PendingBounded(c, s.writes, p, delay);
        WrittenEarlier(s.writes, [], p.key, p.value, p.readAt - c.Ttl() - delay, e.now - 2 * c.Ttl() - 2 * delay);
      }
    }
  }

  lemma RunCons(c: Config, s: State, e: Event, rest: seq<Event>, delay: nat)
    requires Enabled(s, e) && Timely(s, e, delay) && Possible(c, Step(c, s, e).0, rest, delay)
    ensures Possible(c, s, [e] + rest, delay)
    ensures Run(c, s, [e] + rest, delay) == Run(c, Step(c, s, e).0, rest, delay)
  {
    assert ([e] + rest)[1..] == rest;
  }

  /** A second key squeezes the first out of a one-entry memory; Redis keeps it. */
  lemma SqueezeOut(c: Config, key: string, other: string, value: Value)
    returns (events: seq<Event>, s: State)
    requires c.ttlSeconds >= 1 && c.maxItems == 1 && c.redisConnected && key != other && key != ""
    ensures Possible(c, INITIAL, events, 0) && s == Run(c, INITIAL, events, 0)
    ensures s.writes == [Write(key, value, 0), Write(other, value, 0)] && s.pending.Keys == {1}
    ensures key !in s.mem.entries && s.redis == map[key := Entry(value, c.Ttl())]
  {
    var s1 := Step(c, INITIAL, Save(0, key, value, 0)).0;
    assert s1.mem == Store([key], map[key := Entry(value, c.Ttl())]);
    var s2 := Step(c, s1, RedisSet(0, true, 0)).0;
    s := Step(c, s2, Save(1, other, value, 0)).0;
    RunCons(c, s2, Save(1, other, value, 0), [], 0);
    RunCons(c, s1, RedisSet(0, true, 0), [Save(1, other, value, 0)] + [], 0);
    events := [RedisSet(0, true, 0)] + ([Save(1, other, value, 0)] + []);
    RunCons(c, INITIAL, Save(0, key, value, 0), events, 0);
    events := [Save(0, key, value, 0)] + events;
  }

  /** From a state where only Redis has the key, a refill in its last millisecond keeps it for another TTL. */
  lemma RefillAtLastMoment(c: Config, s: State, key: string) returns (events: seq<Event>)
    requires c.redisConnected && key !in s.mem.entries && key in s.redis && s.redis[key].value != Null
    requires 2 !in s.pending
    ensures Possible(c, s, events, 0)
    ensures var t := Run(c, s, events, 0);
      && t.writes == s.writes && t.pending == s.pending
      && key in t.mem.entries && t.mem.entries[key] == Entry(s.redis[key].value, s.redis[key].expiresAt - 1 + c.Ttl())
  {
    var x := s.redis[key].expiresAt - 1;
    var s1 := Step(c, s, Lookup(2, key, x)).0;
    assert s1 == s.(pending := s.pending[2 := AwaitReply(key)]);
    var s2 := Step(c, s1, RedisGet(2, true, x)).0;
    assert s2.pending[2] == Replied(key, s.redis[key].value, x) && s2.mem == s.mem && s2.writes == s.writes;
    RunCons(c, s2, Refill(2, x), [], 0);
    RunCons(c, s1, RedisGet(2, true, x), [Refill(2, x)] + [], 0);
    events := [RedisGet(2, true, x)] + ([Refill(2, x)] + []);
    RunCons(c, s, Lookup(2, key, x), events, 0);
    events := [Lookup(2, key, x)] + events;
  }

  lemma {:induction false} RunConcat(c: Config, s: State, first: seq<Event>, second: seq<Event>, delay: nat)
    requires Possible(c, s, first, delay) && Possible(c, Run(c, s, first, delay), second, delay)
    ensures Possible(c, s, first + second, delay)
    ensures Run(c, s, first + second, delay) == Run(c, Run(c, s, first, delay), second, delay)
    decreases |first|
  {
    if first == [] {
      assert first + second == second;
    } else {
      assert (first + second)[1..] == first[1..] + second;
      RunConcat(c, Step(c, s, first[0]).0, first[1..], second, delay);
    }
  }

  /** The bound is sharp: with no delay at all, a value can be returned 2 * TTL - 1 milliseconds after its only write. */
  lemma StalenessBoundIsSharp(c: Config, key: string, other: string, value: Value) returns (events: seq<Event>)
    requires c.ttlSeconds >= 1 && c.maxItems == 1 && c.redisConnected
    requires key != other && key != "" && value != Null
    ensures Possible(c, INITIAL, events, 0)
    ensures var s := Run(c, INITIAL, events, 0); var late := Lookup(3, key, 2 * c.Ttl() - 1);
      && Enabled(s, late) && Step(c, s, late).1 == value
      && s.writes == [Write(key, value, 0), Write(other, value, 0)]
  {
    var squeeze, s := SqueezeOut(c, key, other, value);
    var refill := RefillAtLastMoment(c, s, key);
    RunConcat(c, INITIAL, squeeze, refill, 0);
    events := squeeze + refill;
  }

  // ---- When the newest value is returned ----

  /** The value of the key's latest `cacheSet`. */
  function Newest(writes: seq<Write>, key: string): Option<Value> {
    if writes == [] then None
    else if writes[|writes| - 1].key == key then Some(writes[|writes| - 1].value)
    else Newest(writes[..|writes| - 1], key)
  }

  /** Memory has the key's newest value, or none. */
  predicate Fresh(s: State, key: string) {
    key in s.mem.entries ==> Newest(s.writes, key) == Some(s.mem.entries[key].value)
  }

  /** A continuation about to refill memory with something other than the key's newest value. */
  predicate StaleRefill(s: State, e: Event, key: string)
    requires Enabled(s, e)
  {
    e.Refill? && s.pending[e.id].key == key && Newest(s.writes, key) != Some(s.pending[e.id].value)
  }

  lemma NewestOfSnoc(writes: seq<Write>, write: Write, key: string)
    ensures Newest(writes + [write], key) == if write.key == key then Some(write.value) else Newest(writes, key)
  {
    assert (writes + [write])[..|writes|] == writes;
  }

  /** Another process setting a key whose other value memory holds. */
  predicate RemoteOverwrite(s: State, e: Event, key: string) {
    e.RemoteSave? && e.key == key && key in s.mem.entries && s.mem.entries[key].value != e.value
  }

  /** The two ways memory falls behind. */
  predicate Outdates(s: State, e: Event, key: string)
    requires Enabled(s, e)
  {
    StaleRefill(s, e, key) || RemoteOverwrite(s, e, key)
  }

  /** Of all steps only those two take memory from the newest value to another one. */
  lemma StepKeepsFreshIff(c: Config, s: State, e: Event, key: string)
    requires Enabled(s, e) && Fresh(s, key)
    ensures Fresh(Step(c, s, e).0, key) <==> !Outdates(s, e, key)
  {
    if e.Save? || e.RemoteSave? {
      NewestOfSnoc(s.writes, Write(e.key, e.value, e.now), key);
    }
  }

  predicate AlwaysFresh(c: Config, s: State, events: seq<Event>, delay: nat, key: string)
    requires Possible(c, s, events, delay)
    decreases |events|
  {
    Fresh(s, key) && (events != [] ==> AlwaysFresh(c, Step(c, s, events[0]).0, events[1..], delay, key))
  }

  predicate EverOutdated(c: Config, s: State, events: seq<Event>, delay: nat, key: string)
    requires Possible(c, s, events, delay)
    decreases |events|
  {
    && events != []
    && (Outdates(s, events[0], key) || EverOutdated(c, Step(c, s, events[0]).0, events[1..], delay, key))
  }

  /**
   Memory is fresh at every moment of a run exactly when the run holds no stale refill and no other process overwrites
   what memory has.
   */
  lemma {:induction false} AlwaysFreshIff(c: Config, s: State, events: seq<Event>, delay: nat, key: string)
    requires Possible(c, s, events, delay) && Fresh(s, key)
    ensures AlwaysFresh(c, s, events, delay, key) <==> !EverOutdated(c, s, events, delay, key)
    ensures AlwaysFresh(c, s, events, delay, key) ==> Fresh(Run(c, s, events, delay), key)
    decreases |events|
  {
    if events != [] {
      StepKeepsFreshIff(c, s, events[0], key);
      if !Outdates(s, events[0], key) {
        AlwaysFreshIff(c, Step(c, s, events[0]).0, events[1..], delay, key);
      } else {
        assert !Fresh(Step(c, s, events[0]).0, key);
      }
    }
  }

  /**
   Read your writes: until memory first falls behind, every value `cacheGet` returns is the one the latest `cacheSet`
   of its key wrote, unless returning it is itself the first stale refill.
   */
  lemma ReturnsNewestIff(c: Config, events: seq<Event>, e: Event, delay: nat)
    requires Possible(c, INITIAL, events, delay) && Enabled(Run(c, INITIAL, events, delay), e)
    ensures var s := Run(c, INITIAL, events, delay); var value, key := Step(c, s, e).1, KeyOf(s, e);
      value != Null && !EverOutdated(c, INITIAL, events, delay, key) ==>
        (Newest(s.writes, key) == Some(value) <==> !StaleRefill(s, e, key))
  {
    AlwaysFreshIff(c, INITIAL, events, delay, KeyOf(Run(c, INITIAL, events, delay), e));
  }

  /**
   Stale refills do happen: one that was waiting puts its older value over a newer `cacheSet`, and the next lookup
   returns the older one. This holds of every state where a reply for the key is waiting.
   */
  lemma WaitingRefillOverwritesNewerSet(c: Config, s: State, refill: Event, save: Event, lookup: Event)
    requires refill.Refill? && Enabled(s, refill) && s.pending[refill.id].value != Null
    requires save.Save? && Enabled(s, save) && save.key == s.pending[refill.id].key
    requires lookup.Lookup? && lookup.key == save.key && lookup.id !in s.pending && lookup.id != save.id
    requires lookup.now <= refill.now + c.Ttl()
    ensures var s1 := Step(c, s, save).0;
      && Enabled(s1, refill)
      && (StaleRefill(s1, refill, save.key) <==> save.value != s.pending[refill.id].value)
      && var s2 := Step(c, s1, refill).0; Enabled(s2, lookup) && Step(c, s2, lookup).1 == s.pending[refill.id].value
  {
    NewestOfSnoc(s.writes, Write(save.key, save.value, save.now), save.key);
  }

  // ---- What was set can be read ----

  /** The ways memory parts with what it holds for a key: a newer entry, capacity, expiry, or a restart. */
  predicate Displaces(c: Config, s: State, e: Event, key: string)
    requires Enabled(s, e)
  {
    match e
    case Lookup(_, k, now) => k == key && key in s.mem.entries && s.mem.entries[key].expiresAt < now
    case Save(_, k, _, _) => k == key || (Evicts(s.mem, c.maxItems) && s.mem.order[0] == key)
    case Refill(id, _) => s.pending[id].key == key || (Evicts(s.mem, c.maxItems) && s.mem.order[0] == key)
    case Restart(_) => true
    case _ => false
  }

  predicate EverDisplaced(c: Config, s: State, events: seq<Event>, delay: nat, key: string)
    requires Possible(c, s, events, delay)
    decreases |events|
  {
    && events != []
    && (Displaces(c, s, events[0], key) || EverDisplaced(c, Step(c, s, events[0]).0, events[1..], delay, key))
  }

  predicate MemHolds(s: State, key: string, entry: Entry) {
    key in s.mem.entries && s.mem.entries[key] == entry
  }

  lemma StepKeepsEntry(c: Config, s: State, e: Event, key: string, entry: Entry)
    requires Enabled(s, e) && MemHolds(s, key, entry) && !Displaces(c, s, e, key)
    ensures MemHolds(Step(c, s, e).0, key, entry)
  {
  }

  lemma {:induction false} RunKeepsEntry(
    c: Config, s: State, events: seq<Event>, delay: nat, key: string, entry: Entry)
    requires Possible(c, s, events, delay) && MemHolds(s, key, entry) && !EverDisplaced(c, s, events, delay, key)
    ensures MemHolds(Run(c, s, events, delay), key, entry)
    decreases |events|
  {
    if events != [] {
      StepKeepsEntry(c, s, events[0], key, entry);
      RunKeepsEntry(c, Step(c, s, events[0]).0, events[1..], delay, key, entry);
    }
  }

  /**
   What `cacheSet` stores, or a refill brings back, is there to be read: as long as no newer entry, eviction or restart
   displaces it, every lookup up to one TTL later returns it, whatever Redis and the other processes do meanwhile.
   */
  lemma SetIsReadBack(c: Config, s: State, put: Event, events: seq<Event>, delay: nat, lookup: Event)
    requires Enabled(s, put) && (put.Save? || put.Refill?)
    requires var t := Step(c, s, put).0;
      && Possible(c, t, events, delay) && !EverDisplaced(c, t, events, delay, KeyOf(s, put))
      && lookup.Lookup? && lookup.key == KeyOf(s, put) && Enabled(Run(c, t, events, delay), lookup)
    requires lookup.now <= put.now + 1000 * c.ttlSeconds
    ensures Step(c, Run(c, Step(c, s, put).0, events, delay), lookup).1
         == if put.Save? then put.value else s.pending[put.id].value
  {
    var t, key := Step(c, s, put).0, KeyOf(s, put);
    var entry := Entry(if put.Save? then put.value else s.pending[put.id].value, put.now + 1000 * c.ttlSeconds);
    assert MemHolds(t, key, entry);
    RunKeepsEntry(c, t, events, delay, key, entry);
  }

  /** A later write that Redis accepts for the key. */
  predicate RedisOverwritten(c: Config, s: State, events: seq<Event>, delay: nat, key: string)
    requires Possible(c, s, events, delay)
    decreases |events|
  {
    && events != []
    && ((events[0].RedisSet? && events[0].ok && s.pending[events[0].id].key == key)
        || RedisOverwritten(c, Step(c, s, events[0]).0, events[1..], delay, key))
  }

  lemma {:induction false} RunKeepsRedisEntry(c: Config, s: State, events: seq<Event>, delay: nat, key: string)
    requires Possible(c, s, events, delay) && key in s.redis && !RedisOverwritten(c, s, events, delay, key)
    ensures var t := Run(c, s, events, delay); key in t.redis && t.redis[key] == s.redis[key]
    decreases |events|
  {
    if events != [] {
      RunKeepsRedisEntry(c, Step(c, s, events[0]).0, events[1..], delay, key);
    }
  }

  /**
   The second tier: what Redis accepted for a key, from whichever process, a lookup that finds memory empty returns, up
   to but not including one TTL after it was accepted, unless Redis accepted a newer value or fails the read; a failed
   or late read returns nothing.
   */
  lemma RedisIsReadBack(c: Config, s: State, put: Event, events: seq<Event>, delay: nat, id: nat, ok: bool, now: int)
    requires Enabled(s, put) && put.RedisSet? && put.ok && s.pending[put.id].value != Null
    requires var t := Step(c, s, put).0;
      && Possible(c, t, events, delay) && !RedisOverwritten(c, t, events, delay, s.pending[put.id].key)
    requires var u := Run(c, Step(c, s, put).0, events, delay);
      id !in u.pending && s.pending[put.id].key !in u.mem.entries && c.redisConnected
    ensures var u := Run(c, Step(c, s, put).0, events, delay); var key, value := s.pending[put.id].key, s.pending[put.id].value;
      var looked := Step(c, u, Lookup(id, key, now));
      && looked.1 == Null && Enabled(looked.0, RedisGet(id, ok, now))
      && var got := Step(c, looked.0, RedisGet(id, ok, now)).0;
         && (Enabled(got, Refill(id, now)) <==> ok && now < put.now + 1000 * c.ttlSeconds)
         && (Enabled(got, Refill(id, now)) ==> Step(c, got, Refill(id, now)).1 == value)
  {
    var t := Step(c, s, put).0;
    assert t.redis[s.pending[put.id].key] == Entry(s.pending[put.id].value, put.now + c.Ttl());
    RunKeepsRedisEntry(c, t, events, delay, s.pending[put.id].key);
  }

  /** Without Redis a lookup that finds memory empty answers at once with nothing, and nothing waits. */
  lemma MemoryOnly(c: Config, s: State, e: Event)
    requires !c.redisConnected && Enabled(s, e) && (e.Lookup? || e.Save?)
    ensures Step(c, s, e).0.pending == s.pending
  {
  }
}
