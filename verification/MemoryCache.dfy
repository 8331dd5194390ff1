/**
 The in-memory tier of the cache: a JavaScript Map whose insertion order is the eviction order. A hit deletes and
 re-inserts its key; overwriting a key leaves it where it is.
 */
module MemoryCache {
  import Sets

  /** A JSON value; null reads as a miss. */
  datatype Value = Null | Json(text: string)

  datatype Entry = Entry(value: Value, expiresAt: int)

  /** `order` is the Map's key order, oldest first. */
  datatype Store = Store(order: seq<string>, entries: map<string, Entry>)

  const EMPTY := Store([], map[])

  function Without(order: seq<string>, key: string): seq<string> {
    if order == [] then []
    else if order[0] == key then order[1..]
    else [order[0]] + Without(order[1..], key)
  }

  /** Map.delete. */
  function Delete(s: Store, key: string): Store {
    Store(Without(s.order, key), s.entries - {key})
  }

  /** Map.set. */
  function Put(s: Store, key: string, entry: Entry): Store {
    Store(if key in s.entries then s.order else s.order + [key], s.entries[key := entry])
  }

  function Get(s: Store, key: string, now: int): (Store, Value) {
    if key !in s.entries then (s, Null)
    else if now > s.entries[key].expiresAt then (Delete(s, key), Null)
    else (Put(Delete(s, key), key, s.entries[key]), s.entries[key].value)
  }

  /** At capacity the first key goes, unless it is the empty string, which the truthiness test spares. */
  predicate Evicts(s: Store, maxItems: int) {
    |s.order| >= maxItems && |s.order| > 0 && s.order[0] != ""
  }

  function MakeRoom(s: Store, maxItems: int): Store {
    if Evicts(s, maxItems) then Delete(s, s.order[0]) else s
  }

  function Set(s: Store, maxItems: int, key: string, value: Value, ttlSeconds: int, now: int): Store {
    Put(MakeRoom(s, maxItems), key, Entry(value, now + ttlSeconds * 1000))
  }

  // ---- The store is a map with an order ----

  ghost predicate Valid(s: Store) {
    && (forall k :: k in s.order <==> k in s.entries)
    && (forall i, j :: 0 <= i < j < |s.order| ==> s.order[i] != s.order[j])
  }

  ghost predicate Distinct(order: seq<string>) {
    forall i, j :: 0 <= i < j < |order| ==> order[i] != order[j]
  }

  /** Deleting a key of a duplicate-free order keeps the others, in their order. */
  lemma {:induction false} WithoutShape(order: seq<string>, key: string)
    requires Distinct(order)
    ensures Distinct(Without(order, key))
    ensures forall k :: k in Without(order, key) <==> k in order && k != key
    ensures |Without(order, key)| == |order| - (if key in order then 1 else 0)
  {
    if order != [] {
      assert Distinct(order[1..]);
      assert forall k :: k in order <==> k == order[0] || k in order[1..];
      assert order[0] !in order[1..];
      if order[0] != key {
        WithoutShape(order[1..], key);
      }
    }
  }

  lemma PutKeepsValid(s: Store, key: string, entry: Entry)
    requires Valid(s)
    ensures Valid(Put(s, key, entry))
  {
  }

  lemma DeleteKeepsValid(s: Store, key: string)
    requires Valid(s)
    ensures Valid(Delete(s, key))
    ensures |Delete(s, key).order| == |s.order| - (if key in s.entries then 1 else 0)
  {
    WithoutShape(s.order, key);
  }

  lemma GetKeepsValid(s: Store, key: string, now: int)
    requires Valid(s)
    ensures Valid(Get(s, key, now).0)
    ensures |Get(s, key, now).0.order| <= |s.order|
  {
    DeleteKeepsValid(s, key);
    if key in s.entries {
      PutKeepsValid(Delete(s, key), key, s.entries[key]);
    }
  }

  lemma SetKeepsValid(s: Store, maxItems: int, key: string, value: Value, ttlSeconds: int, now: int)
    requires Valid(s)
    ensures Valid(Set(s, maxItems, key, value, ttlSeconds, now))
  {
    if Evicts(s, maxItems) {
      DeleteKeepsValid(s, s.order[0]);
    }
    PutKeepsValid(MakeRoom(s, maxItems), key, Entry(value, now + ttlSeconds * 1000));
  }

  /** From within capacity, a set overflows exactly when the spared empty key heads a full store and the key is new. */
  lemma SetOverflowsIff(s: Store, maxItems: int, key: string, value: Value, ttlSeconds: int, now: int)
    requires Valid(s) && 1 <= maxItems && |s.order| <= maxItems
    ensures |Set(s, maxItems, key, value, ttlSeconds, now).order| > maxItems
       <==> |s.order| == maxItems && s.order[0] == "" && key !in s.entries
  {
    if Evicts(s, maxItems) {
      DeleteKeepsValid(s, s.order[0]);
    }
  }

  /** A lookup leaves the key behind exactly when it was there and alive, then as the most recent one, and no other changes. */
  lemma GetKeepsLiveKeys(s: Store, key: string, now: int, other: string)
    requires Valid(s)
    ensures var t := Get(s, key, now).0;
      && (key in t.entries <==> key in s.entries && now <= s.entries[key].expiresAt)
      && (key in t.entries ==> t.order[|t.order| - 1] == key && t.entries[key] == s.entries[key])
      && (other != key ==> (other in t.entries <==> other in s.entries))
      && (other != key && other in s.entries ==> t.entries[other] == s.entries[other])
  {
    DeleteKeepsValid(s, key);
    if key in s.entries {
      PutKeepsValid(Delete(s, key), key, s.entries[key]);
    }
  }

  // ---- Runs ----

  datatype Event =
    | DoGet(key: string, now: int)
    | DoSet(key: string, value: Value, ttlSeconds: int, now: int)

  function Step(s: Store, maxItems: int, e: Event): Store {
    match e
    case DoGet(key, now) => Get(s, key, now).0
    case DoSet(key, value, ttlSeconds, now) => Set(s, maxItems, key, value, ttlSeconds, now)
  }

  /** The store after the events, first to last. */
  function Run(maxItems: int, events: seq<Event>): Store
    decreases |events|
  {
    if events == [] then EMPTY
    else Step(Run(maxItems, events[..|events| - 1]), maxItems, events[|events| - 1])
  }

  lemma {:induction false} RunIsValid(maxItems: int, events: seq<Event>)
    ensures Valid(Run(maxItems, events))
    decreases |events|
  {
    if events != [] {
      var before := Run(maxItems, events[..|events| - 1]);
      RunIsValid(maxItems, events[..|events| - 1]);
      match events[|events| - 1]
      case DoGet(key, now) => GetKeepsValid(before, key, now);
      case DoSet(key, value, ttlSeconds, now) => SetKeepsValid(before, maxItems, key, value, ttlSeconds, now);
    }
  }

  /** The size never exceeds the capacity, in any run whose keys are not empty. */
  lemma {:induction false} RunStaysWithinCapacity(maxItems: int, events: seq<Event>)
    requires 1 <= maxItems && forall e :: e in events ==> e.key != ""
    ensures |Run(maxItems, events).order| <= maxItems
    ensures "" !in Run(maxItems, events).entries
    decreases |events|
  {
    if events != [] {
      var prefix := events[..|events| - 1];
      var e := events[|events| - 1];
      var before := Run(maxItems, prefix);
      assert e in events && forall d :: d in prefix ==> d in events;
      RunStaysWithinCapacity(maxItems, prefix);
      RunIsValid(maxItems, prefix);
      match e
      case DoGet(key, now) => GetKeepsValid(before, key, now);
      case DoSet(key, value, ttlSeconds, now) =>
        assert before.order != [] ==> before.order[0] in before.order;
        SetOverflowsIff(before, maxItems, key, value, ttlSeconds, now);
    }
  }

  // ---- Least recently used ----

  /** The key an event inserts as new or hits, if any. */
  function Touched(s: Store, maxItems: int, e: Event): seq<string> {
    match e
    case DoGet(key, now) => if key in s.entries && now <= s.entries[key].expiresAt then [key] else []
    case DoSet(key, _, _, _) => if key in MakeRoom(s, maxItems).entries then [] else [key]
  }

  /** Every insertion and hit of the run, in order. */
  function Touches(maxItems: int, events: seq<Event>): seq<string>
    decreases |events|
  {
    if events == [] then []
    else
      var prefix := events[..|events| - 1];
      Touches(maxItems, prefix) + Touched(Run(maxItems, prefix), maxItems, events[|events| - 1])
  }

  /** What was touched after the last touch of `key`; everything, if it never was. */
  function Since(touches: seq<string>, key: string): (since: seq<string>)
    ensures |since| <= |touches|
  {
    if touches == [] || touches[|touches| - 1] == key then []
    else Since(touches[..|touches| - 1], key) + [touches[|touches| - 1]]
  }

  /** Later in the order means touched since. */
  ghost predicate RecencyOrdered(order: seq<string>, touches: seq<string>) {
    forall i, j :: 0 <= i < j < |order| ==> order[j] in Since(touches, order[i])
  }

  lemma SinceStep(touches: seq<string>, key: string, last: string)
    ensures Since(touches + [last], key) == if last == key then [] else Since(touches, key) + [last]
  {
    assert (touches + [last])[..|touches|] == touches;
  }

  lemma {:induction false} WithoutKeepsOrder(order: seq<string>, key: string, touches: seq<string>)
    requires RecencyOrdered(order, touches)
    ensures RecencyOrdered(Without(order, key), touches)
    ensures forall k :: k in Without(order, key) ==> k in order
  {
    if order != [] {
      assert RecencyOrdered(order[1..], touches);
      if order[0] != key {
        WithoutKeepsOrder(order[1..], key, touches);
        var rest := Without(order[1..], key);
        var kept := [order[0]] + rest;
        forall i, j | 0 <= i < j < |kept| ensures kept[j] in Since(touches, kept[i]) {
          assert kept[j] == rest[j - 1];
          if i > 0 {
            assert kept[i] == rest[i - 1];
          } else {
            assert rest[j - 1] in order[1..];
          }
        }
      }
    }
  }

  lemma AppendKeepsOrder(order: seq<string>, touches: seq<string>, key: string)
    requires RecencyOrdered(order, touches) && key !in order
    ensures RecencyOrdered(order + [key], touches + [key])
  {
    var longer := order + [key];
    forall i, j | 0 <= i < j < |longer| ensures longer[j] in Since(touches + [key], longer[i]) {
      SinceStep(touches, longer[i], key);
    }
  }

  lemma {:induction false} RunIsRecencyOrdered(maxItems: int, events: seq<Event>)
    ensures RecencyOrdered(Run(maxItems, events).order, Touches(maxItems, events))
    decreases |events|
  {
    if events != [] {
      var prefix := events[..|events| - 1];
      var s := Run(maxItems, prefix);
      var touches := Touches(maxItems, prefix);
      RunIsRecencyOrdered(maxItems, prefix);
      RunIsValid(maxItems, prefix);
      assert touches + [] == touches;
      match events[|events| - 1]
      case DoGet(key, now) =>
        WithoutKeepsOrder(s.order, key, touches);
        WithoutShape(s.order, key);
        if key in s.entries && now <= s.entries[key].expiresAt {
          AppendKeepsOrder(Without(s.order, key), touches, key);
        }
      case DoSet(key, _, _, _) =>
        var room := MakeRoom(s, maxItems);
        if Evicts(s, maxItems) {
          WithoutKeepsOrder(s.order, s.order[0], touches);
          DeleteKeepsValid(s, s.order[0]);
        }
        if key !in room.entries {
          AppendKeepsOrder(room.order, touches, key);
        }
    }
  }

  function Elements(keys: seq<string>): set<string> {
    set k | k in keys
  }

  lemma {:induction false} DistinctCount(order: seq<string>)
    requires Distinct(order)
    ensures |Elements(order)| == |order|
  {
    if order != [] {
      DistinctCount(order[1..]);
      assert Elements(order) == {order[0]} + Elements(order[1..]);
      assert order[0] !in order[1..];
    }
  }

  /**
   Whenever capacity evicts a key, at least maxItems - 1 other keys were inserted or hit since it last was: nothing
   more recent could have been spared for it.
   */
  lemma EvictedIsLeastRecentlyUsed(maxItems: int, events: seq<Event>)
    requires 1 <= maxItems && Evicts(Run(maxItems, events), maxItems)
    ensures var victim := Run(maxItems, events).order[0];
      |Elements(Since(Touches(maxItems, events), victim)) - {victim}| >= maxItems - 1
  {
    var order := Run(maxItems, events).order;
    var others := order[1..];
    var since := Elements(Since(Touches(maxItems, events), order[0])) - {order[0]};
    RunIsValid(maxItems, events);
    RunIsRecencyOrdered(maxItems, events);
    DistinctCount(others);
    forall k | k in Elements(others) ensures k in since {
      var j :| 0 <= j < |others| && others[j] == k;
      assert order[j + 1] == k && k != order[0];
    }
    Sets.SubsetIsSmaller(Elements(others), since);
  }

  // ---- The unbounded map it speeds up ----

  /** What each key was last set to, with nothing ever removed. */
  function LastSet(events: seq<Event>): map<string, Entry>
    decreases |events|
  {
    if events == [] then map[]
    else
      var earlier := LastSet(events[..|events| - 1]);
      match events[|events| - 1]
      case DoGet(_, _) => earlier
      case DoSet(key, value, ttlSeconds, now) => earlier[key := Entry(value, now + ttlSeconds * 1000)]
  }

  /** The keys capacity evicted and that were not set again since. */
  function EvictedKeys(maxItems: int, events: seq<Event>): set<string>
    decreases |events|
  {
    if events == [] then {}
    else
      var prefix := events[..|events| - 1];
      var earlier := EvictedKeys(maxItems, prefix);
      var s := Run(maxItems, prefix);
      match events[|events| - 1]
      case DoGet(_, _) => earlier
      case DoSet(key, _, _, _) => earlier + (if Evicts(s, maxItems) then {s.order[0]} else {}) - {key}
  }

  /** The clock the events carry never goes back. */
  ghost predicate Monotone(events: seq<Event>) {
    forall i, j :: 0 <= i <= j < |events| ==> events[i].now <= events[j].now
  }

  ghost predicate Refines(s: Store, last: map<string, Entry>, evicted: set<string>, now: int) {
    && (forall k :: k in s.entries ==> k in last && s.entries[k] == last[k])
    && (forall k :: k in last && k !in s.entries ==> k in evicted || last[k].expiresAt < now)
  }

  lemma {:induction false} RunRefinesLastSet(maxItems: int, events: seq<Event>, now: int)
    requires Monotone(events) && forall e :: e in events ==> e.now <= now
    ensures Refines(Run(maxItems, events), LastSet(events), EvictedKeys(maxItems, events), now)
    decreases |events|
  {
    if events != [] {
      var prefix := events[..|events| - 1];
      var e := events[|events| - 1];
      assert e in events;
      assert forall d :: d in prefix ==> d.now <= e.now;
      RunRefinesLastSet(maxItems, prefix, e.now);
    }
  }

  /**
   The bounded cache against the unbounded map: a value read is the one most recently set and has not expired, and a
   value set and not expired can only fail to be read if capacity evicted its key since.
   */
  lemma CacheRefinesTtlMap(maxItems: int, events: seq<Event>, key: string, now: int)
    requires Monotone(events + [DoGet(key, now)])
    ensures var value := Get(Run(maxItems, events), key, now).1; var last := LastSet(events);
      && (value != Null ==> key in last && value == last[key].value && now <= last[key].expiresAt)
      && (key in last && now <= last[key].expiresAt && key !in EvictedKeys(maxItems, events) ==> value == last[key].value)
  {
    var longer := events + [DoGet(key, now)];
    forall e | e in events ensures e.now <= now {
      var i :| 0 <= i < |events| && events[i] == e;
      assert longer[i] == e && longer[|events|] == DoGet(key, now);
    }
    forall i, j | 0 <= i <= j < |events| ensures events[i].now <= events[j].now {
      assert longer[i] == events[i] && longer[j] == events[j];
    }
    RunRefinesLastSet(maxItems, events, now);
  }
}
