/**
 The single-flight refresh of the JWKS cache, as steps of arbitrarily many concurrent callers. Every lock-protected
 or atomic access is one step; anything can happen between two steps of a caller.
 */
module Jwks {
  import opened Wrappers

  type Keys = seq<string>

  /** A completed fetch; `keys` is None when it failed. */
  datatype Fetch = Fetch(startedAt: int, endedAt: int, keys: Option<Keys>)

  /** How a finished caller came by its answer; numbers index the completed fetches. */
  datatype Path =
    | Fast(fetch: nat, fetchedAt: int, readAt: int, forced: bool)
    | Winner(fetch: nat)
    | Waiter(wokenBy: nat, read: Option<nat>)

  datatype Pc =
    | Begin(force: bool)
    | Contending
    | Fetching
    | Fetched(fetch: nat, keys: Keys)
    | Stored(fetch: nat, keys: Keys)
    | Failed(fetch: nat)
    | Cleared(fetch: nat, answer: Option<Keys>)
    | Parking
    | Waiting
    | Woken(fetch: nat)
    | Done(answer: Option<Keys>, path: Path)

  /** `source`, `startedAt`, `owner` and `fetches` are history: no step of the program reads them. */
  datatype State = State(
    ttl: int, clock: int, keys: Keys, fetchedAt: int, fetching: bool, callers: map<nat, Pc>,
    source: Option<nat>, startedAt: int, owner: Option<nat>, fetches: seq<Fetch>)

  /** The empty cache is backdated by two hours. */
  function Initial(ttl: int, clock: int): State {
    State(ttl, clock, [], clock - 7200, false, map[], None, clock, None, [])
  }

  datatype Event =
    | Tick(elapsed: nat)
    | Arrive(c: nat, force: bool)
    | Check(c: nat)
    | CompareExchange(c: nat)
    | FetchEnds(c: nat, keys: Option<Keys>)
    | WriteCache(c: nat)
    | ClearFlag(c: nat)
    | NotifyWaiters(c: nat)
    | Park(c: nat)
    | ReadCache(c: nat)

  predicate At(s: State, c: nat) {
    c in s.callers
  }

  predicate Enabled(s: State, e: Event) {
    match e
    case Tick(_) => true
    case Arrive(c, _) => !At(s, c)
    case Check(c) => At(s, c) && s.callers[c].Begin?
    case CompareExchange(c) => At(s, c) && s.callers[c].Contending?
    case FetchEnds(c, _) => At(s, c) && s.callers[c].Fetching?
    case WriteCache(c) => At(s, c) && s.callers[c].Fetched?
    case ClearFlag(c) => At(s, c) && (s.callers[c].Stored? || s.callers[c].Failed?)
    case NotifyWaiters(c) => At(s, c) && s.callers[c].Cleared?
    case Park(c) => At(s, c) && s.callers[c].Parking?
    case ReadCache(c) => At(s, c) && s.callers[c].Woken?
  }

  predicate IsStale(s: State) {
    s.clock - s.fetchedAt > s.ttl
  }

  /** The fast path answers when not forced, not stale and not empty. */
  function DoCheck(s: State, c: nat): State
    requires At(s, c) && s.callers[c].Begin?
  {
    if !s.callers[c].force && !IsStale(s) && s.keys != [] then
      var fetch := if s.source.Some? then s.source.value else 0;
      s.(callers := s.callers[c := Done(Some(s.keys), Fast(fetch, s.fetchedAt, s.clock, s.callers[c].force))])
    else s.(callers := s.callers[c := Contending])
  }

  function DoCompareExchange(s: State, c: nat): State {
    if !s.fetching then
      s.(fetching := true, callers := s.callers[c := Fetching], owner := Some(c), startedAt := s.clock)
    else s.(callers := s.callers[c := Parking])
  }

  function DoFetchEnds(s: State, c: nat, keys: Option<Keys>): State {
    s.(callers := s.callers[c := if keys.Some? then Fetched(|s.fetches|, keys.value) else Failed(|s.fetches|)],
       fetches := s.fetches + [Fetch(s.startedAt, s.clock, keys)])
  }

  function DoWriteCache(s: State, c: nat): State
    requires At(s, c) && s.callers[c].Fetched?
  {
    var pc := s.callers[c];
    s.(keys := pc.keys, fetchedAt := s.clock, source := Some(pc.fetch),
       callers := s.callers[c := Stored(pc.fetch, pc.keys)])
  }

  function DoClearFlag(s: State, c: nat): State
    requires At(s, c) && (s.callers[c].Stored? || s.callers[c].Failed?)
  {
    var pc := s.callers[c];
    s.(fetching := false, owner := None,
       callers := s.callers[c := Cleared(pc.fetch, if pc.Stored? then Some(pc.keys) else None)])
  }

  function WakeAll(callers: map<nat, Pc>, fetch: nat): map<nat, Pc> {
    map c | c in callers :: if callers[c].Waiting? then Woken(fetch) else callers[c]
  }

  /** Wakes everyone waiting, then returns the fetch's own outcome. */
  function DoNotify(s: State, c: nat): State
    requires At(s, c) && s.callers[c].Cleared?
  {
    var pc := s.callers[c];
    s.(callers := WakeAll(s.callers, pc.fetch)[c := Done(pc.answer, Winner(pc.fetch))])
  }

  /** A woken waiter answers with whatever the cache holds, or with an error when it holds no keys. */
  function DoReadCache(s: State, c: nat): State
    requires At(s, c) && s.callers[c].Woken?
  {
    s.(callers := s.callers[c := Done(if s.keys == [] then None else Some(s.keys), Waiter(s.callers[c].fetch, s.source))])
  }

  // ---- The invariant ----

  /** Between the winning compare-exchange and the clear. */
  predicate Critical(pc: Pc) {
    pc.Fetching? || pc.Fetched? || pc.Stored? || pc.Failed?
  }

  predicate AtLeast(source: Option<nat>, fetch: nat) {
    source.Some? && source.value >= fetch
  }

  predicate Succeeded(s: State, fetch: nat) {
    fetch < |s.fetches| && s.fetches[fetch].keys.Some?
  }

  predicate IsLast(s: State, fetch: nat) {
    fetch + 1 == |s.fetches|
  }

  predicate CallerInv(s: State, pc: Pc) {
    match pc
    case Fetching => s.source.Some? ==> s.source.value < |s.fetches|
    case Fetched(n, keys) => Succeeded(s, n) && s.fetches[n].keys == Some(keys) && IsLast(s, n) && (s.source.Some? ==> s.source.value < n)
    case Stored(n, keys) => Succeeded(s, n) && s.fetches[n].keys == Some(keys) && IsLast(s, n) && AtLeast(s.source, n)
    case Failed(n) => IsLast(s, n) && s.fetches[n].keys.None?
    case Cleared(n, answer) => n < |s.fetches| && s.fetches[n].keys == answer && (Succeeded(s, n) ==> AtLeast(s.source, n))
    case Woken(n) => n < |s.fetches| && (Succeeded(s, n) ==> AtLeast(s.source, n))
    case Done(answer, path) => AnswerInv(s, answer, path)
    case _ => true
  }

  /** What each way of finishing promises about the answer. */
  predicate AnswerInv(s: State, answer: Option<Keys>, path: Path) {
    match path
    case Fast(n, fetchedAt, readAt, forced) =>
      && !forced && Succeeded(s, n) && answer == s.fetches[n].keys && answer != Some([])
      && readAt - fetchedAt <= s.ttl && s.fetches[n].endedAt <= fetchedAt <= readAt <= s.clock
    case Winner(n) => n < |s.fetches| && answer == s.fetches[n].keys
    case Waiter(w, n) =>
      && w < |s.fetches|
      && (answer.Some? ==> answer != Some([]) && n.Some? && Succeeded(s, n.value) && answer == s.fetches[n.value].keys)
      && (Succeeded(s, w) ==> AtLeast(n, w))
      && (answer.None? && n.Some? ==> n.value < |s.fetches| && s.fetches[n.value].keys == Some([]))
  }

  predicate CacheInv(s: State) {
    && (s.source.None? ==> s.keys == [])
    && (s.source.Some? ==>
          && Succeeded(s, s.source.value) && s.fetches[s.source.value].keys == Some(s.keys)
          && s.fetches[s.source.value].endedAt <= s.fetchedAt <= s.clock)
  }

  ghost predicate FetchLogInv(s: State) {
    && (forall n :: 0 <= n < |s.fetches| ==> s.fetches[n].startedAt <= s.fetches[n].endedAt <= s.clock)
    && (forall n :: 0 < n < |s.fetches| ==> s.fetches[n - 1].endedAt <= s.fetches[n].startedAt)
    && (s.fetching ==> s.startedAt <= s.clock)
    && (forall c :: c in s.callers && s.callers[c].Fetching? && |s.fetches| > 0 ==>
          s.fetches[|s.fetches| - 1].endedAt <= s.startedAt)
  }

  ghost predicate OwnerInv(s: State) {
    && s.fetching == s.owner.Some?
    && (s.owner.Some? ==> At(s, s.owner.value))
    && (forall c :: c in s.callers ==> (Critical(s.callers[c]) <==> s.owner == Some(c)))
  }

  ghost predicate Inv(s: State) {
    && OwnerInv(s) && CacheInv(s) && FetchLogInv(s)
    && forall c :: c in s.callers ==> CallerInv(s, s.callers[c])
  }

  function Step(s: State, e: Event): State
    requires Enabled(s, e)
  {
    match e
    case Tick(elapsed) => s.(clock := s.clock + elapsed)
    case Arrive(c, force) => s.(callers := s.callers[c := Begin(force)])
    case Check(c) => DoCheck(s, c)
    case CompareExchange(c) => DoCompareExchange(s, c)
    case FetchEnds(c, keys) => DoFetchEnds(s, c, keys)
    case WriteCache(c) => DoWriteCache(s, c)
    case ClearFlag(c) => DoClearFlag(s, c)
    case NotifyWaiters(c) => DoNotify(s, c)
    case Park(c) => s.(callers := s.callers[c := Waiting])
    case ReadCache(c) => DoReadCache(s, c)
  }

  /** What a caller was promised survives a step that keeps the fetch log and does not take the cache backwards. */
  lemma CallerInvKept(s: State, t: State, pc: Pc)
    requires CallerInv(s, pc) && !Critical(pc)
    requires t.ttl == s.ttl && s.clock <= t.clock && |s.fetches| <= |t.fetches| && t.fetches[..|s.fetches|] == s.fetches
    requires s.source.Some? ==> AtLeast(t.source, s.source.value)
    ensures CallerInv(t, pc)
  {
    assert forall n :: 0 <= n < |s.fetches| ==> t.fetches[n] == s.fetches[n];
  }

  lemma FetchEndsKeepsInv(s: State, c: nat, keys: Option<Keys>)
    requires Inv(s) && At(s, c) && s.callers[c].Fetching?
    ensures Inv(DoFetchEnds(s, c, keys))
  {
    var t := DoFetchEnds(s, c, keys);
    assert t.fetches[..|s.fetches|] == s.fetches;
    assert CallerInv(s, s.callers[c]);
    forall d | d in t.callers ensures CallerInv(t, t.callers[d]) {
      if d != c {
        CallerInvKept(s, t, s.callers[d]);
      }
    }
  }

  lemma WriteCacheKeepsInv(s: State, c: nat)
    requires Inv(s) && At(s, c) && s.callers[c].Fetched?
    ensures Inv(DoWriteCache(s, c))
  {
    assert CallerInv(s, s.callers[c]);
    var t := DoWriteCache(s, c);
    forall d | d in t.callers ensures CallerInv(t, t.callers[d]) {
      if d != c {
        CallerInvKept(s, t, s.callers[d]);
      }
    }
  }

  /** Waking everyone after a fetch that the cache has caught up with. */
  lemma WakeKeepsInv(s: State, fetch: nat)
    requires Inv(s) && fetch < |s.fetches| && (Succeeded(s, fetch) ==> AtLeast(s.source, fetch))
    ensures Inv(s.(callers := WakeAll(s.callers, fetch)))
  {
    var t := s.(callers := WakeAll(s.callers, fetch));
    forall d | d in t.callers ensures CallerInv(t, t.callers[d]) {
      assert CallerInv(s, s.callers[d]);
      if Critical(s.callers[d]) {
        CriticalKept(s, t, s.callers[d]);
      } else if !s.callers[d].Waiting? {
        CallerInvKept(s, t, s.callers[d]);
      }
    }
  }

  lemma NotifyKeepsInv(s: State, c: nat)
    requires Inv(s) && At(s, c) && s.callers[c].Cleared?
    ensures Inv(DoNotify(s, c))
  {
    var pc := s.callers[c];
    assert CallerInv(s, pc);
    WakeKeepsInv(s, pc.fetch);
    var woken := s.(callers := WakeAll(s.callers, pc.fetch));
    CallerMoves(woken, c, Done(pc.answer, Winner(pc.fetch)));
  }

  lemma TickKeepsInv(s: State, elapsed: nat)
    requires Inv(s)
    ensures Inv(s.(clock := s.clock + elapsed))
  {
    var t := s.(clock := s.clock + elapsed);
    forall c | c in t.callers ensures CallerInv(t, t.callers[c]) {
      if !Critical(s.callers[c]) {
        CallerInvKept(s, t, s.callers[c]);
      } else {
        assert CallerInv(s, s.callers[c]);
      }
    }
  }

  /** A caller moving outside the critical section, with the shared state left alone. */
  lemma CallerMoves(s: State, c: nat, pc: Pc)
    requires Inv(s) && !Critical(pc) && (At(s, c) ==> !Critical(s.callers[c])) && CallerInv(s, pc)
    ensures Inv(s.(callers := s.callers[c := pc]))
  {
    var t := s.(callers := s.callers[c := pc]);
    forall d | d in t.callers ensures CallerInv(t, t.callers[d]) {
      assert CallerInv(s, t.callers[d]);
      if Critical(t.callers[d]) { CriticalKept(s, t, t.callers[d]); } else { CallerInvKept(s, t, t.callers[d]); }
    }
    assert forall d :: d in t.callers ==> (Critical(t.callers[d]) <==> t.owner == Some(d));
  }

  lemma CriticalKept(s: State, t: State, pc: Pc)
    requires CallerInv(s, pc) && Critical(pc) && t.source == s.source && t.fetches == s.fetches
    ensures CallerInv(t, pc)
  {
  }

  lemma CompareExchangeKeepsInv(s: State, c: nat)
    requires Inv(s) && At(s, c) && s.callers[c].Contending?
    ensures Inv(DoCompareExchange(s, c))
  {
    if s.fetching {
      CallerMoves(s, c, Parking);
    } else {
      var t := DoCompareExchange(s, c);
      forall d | d in t.callers ensures CallerInv(t, t.callers[d]) {
        if d != c { CallerInvKept(s, t, s.callers[d]); }
      }
    }
  }

  lemma ClearFlagKeepsInv(s: State, c: nat)
    requires Inv(s) && At(s, c) && (s.callers[c].Stored? || s.callers[c].Failed?)
    ensures Inv(DoClearFlag(s, c))
  {
    var t := DoClearFlag(s, c);
    assert CallerInv(s, s.callers[c]);
    forall d | d in t.callers ensures CallerInv(t, t.callers[d]) {
      if d != c { CallerInvKept(s, t, s.callers[d]); }
    }
  }

  lemma ArriveKeepsInv(s: State, c: nat, force: bool)
    requires Inv(s) && !At(s, c)
    ensures Inv(s.(callers := s.callers[c := Begin(force)]))
  {
    CallerMoves(s, c, Begin(force));
  }

  lemma ParkKeepsInv(s: State, c: nat)
    requires Inv(s) && At(s, c) && s.callers[c].Parking?
    ensures Inv(s.(callers := s.callers[c := Waiting]))
  {
    CallerMoves(s, c, Waiting);
  }

  lemma CheckKeepsInv(s: State, c: nat)
    requires Inv(s) && At(s, c) && s.callers[c].Begin?
    ensures Inv(DoCheck(s, c))
  {
    CallerMoves(s, c, DoCheck(s, c).callers[c]);
  }

  lemma ReadCacheKeepsInv(s: State, c: nat)
    requires Inv(s) && At(s, c) && s.callers[c].Woken?
    ensures Inv(DoReadCache(s, c))
  {
    assert CallerInv(s, s.callers[c]);
    CallerMoves(s, c, DoReadCache(s, c).callers[c]);
  }

  lemma StepKeepsInv(s: State, e: Event)
    requires Inv(s) && Enabled(s, e)
    ensures Inv(Step(s, e))
  {
    match e
    case Tick(elapsed) => TickKeepsInv(s, elapsed);
    case FetchEnds(c, keys) => FetchEndsKeepsInv(s, c, keys);
    case WriteCache(c) => WriteCacheKeepsInv(s, c);
    case NotifyWaiters(c) => NotifyKeepsInv(s, c);
    case Arrive(c, force) => ArriveKeepsInv(s, c, force);
    case Check(c) => CheckKeepsInv(s, c);
    case CompareExchange(c) => CompareExchangeKeepsInv(s, c);
    case ClearFlag(c) => ClearFlagKeepsInv(s, c);
    case Park(c) => ParkKeepsInv(s, c);
    case ReadCache(c) => ReadCacheKeepsInv(s, c);
  }

  /** A run: each step was enabled and led to the next state. */
  ghost predicate IsRun(states: seq<State>, events: seq<Event>) {
    && |states| == |events| + 1
    && states[0] == Initial(states[0].ttl, states[0].clock)
    && forall k :: 0 <= k < |events| ==> Enabled(states[k], events[k]) && states[k + 1] == Step(states[k], events[k])
  }

  lemma {:induction false} RunKeepsInv(states: seq<State>, events: seq<Event>, k: nat)
    requires IsRun(states, events) && k < |states|
    ensures Inv(states[k])
  {
    if k > 0 {
      RunKeepsInv(states, events, k - 1);
      assert Enabled(states[k - 1], events[k - 1]);
      StepKeepsInv(states[k - 1], events[k - 1]);
    }
  }

  // ---- What it means ----

  /**
   Single flight, at every moment of every run of any number of callers: the flag is set exactly while one caller is
   between its winning compare-exchange and its clear, and no two fetches overlap in time.
   */
  lemma SingleFlight(states: seq<State>, events: seq<Event>, k: nat)
    requires IsRun(states, events) && k < |states|
    ensures var s := states[k];
      && (s.fetching <==> exists c :: c in s.callers && Critical(s.callers[c]))
      && (forall c, d :: c in s.callers && d in s.callers && Critical(s.callers[c]) && Critical(s.callers[d]) ==> c == d)
      && (forall m, n :: 0 <= m < n < |s.fetches| ==> s.fetches[m].endedAt <= s.fetches[n].startedAt)
  {
    RunKeepsInv(states, events, k);
    var s := states[k];
    if s.fetching {
      assert s.owner.value in s.callers && Critical(s.callers[s.owner.value]);
    }
    forall m, n | 0 <= m < n < |s.fetches| ensures s.fetches[m].endedAt <= s.fetches[n].startedAt {
      FetchesInOrder(s, m, n);
    }
  }

  lemma {:induction false} FetchesInOrder(s: State, m: nat, n: nat)
    requires FetchLogInv(s) && m < n < |s.fetches|
    ensures s.fetches[m].endedAt <= s.fetches[n].startedAt
    decreases n
  {
    if m + 1 < n {
      FetchesInOrder(s, m, n - 1);
    }
  }

  /**
   Every list of keys a caller returns is exactly the list of one completed fetch. A fast-path list was not forced and
   was written within the TTL of being read; a waiter woken by a successful fetch answers from that fetch or a later one.
   */
  lemma AnswersComeFromFetches(states: seq<State>, events: seq<Event>, k: nat, c: nat)
    requires IsRun(states, events) && k < |states| && c in states[k].callers && states[k].callers[c].Done?
    ensures var s := states[k]; var (answer, path) := (s.callers[c].answer, s.callers[c].path);
      && (answer.Some? ==> exists n :: 0 <= n < |s.fetches| && s.fetches[n].keys == answer)
      && (path.Fast? ==> !path.forced && answer.Some? && path.readAt - path.fetchedAt <= s.ttl
                         && path.fetch < |s.fetches| && s.fetches[path.fetch].keys == answer
                         && s.fetches[path.fetch].endedAt <= path.fetchedAt)
      && (path.Winner? ==> path.fetch < |s.fetches| && answer == s.fetches[path.fetch].keys)
      && (path.Waiter? && answer.Some? && Succeeded(s, path.wokenBy) ==>
            path.read.Some? && path.wokenBy <= path.read.value < |s.fetches|
            && s.fetches[path.read.value].keys == answer)
      && (path.Waiter? && answer.None? ==>
            path.read.None? || (path.read.value < |s.fetches| && s.fetches[path.read.value].keys == Some([])))
  {
    RunKeepsInv(states, events, k);
    assert CallerInv(states[k], states[k].callers[c]);
  }

  /**
   What the guard does not promise: a waiter never learns whether the fetch it waited for failed. Its answer is at
   least as recent as that fetch exactly when the fetch succeeded or a later one has already filled the cache; else
   the waiter still answers Ok, with an older list, whenever the cache holds any keys at all.
   */
  lemma WaiterIgnoresFailure(s: State, c: nat)
    requires Inv(s) && At(s, c) && s.callers[c].Woken?
    ensures var w, pc := s.callers[c].fetch, DoReadCache(s, c).callers[c];
      && pc.Done? && pc.path.Waiter?
      && (AtLeast(pc.path.read, w) <==> Succeeded(s, w) || (s.source.Some? && s.source.value > w))
      && (pc.answer.Some? && !AtLeast(pc.path.read, w) ==>
            pc.path.read.Some? && pc.path.read.value < w && s.fetches[pc.path.read.value].keys == pc.answer)
  {
    assert CallerInv(s, s.callers[c]);
  }

  // ---- The fast path ----

  /** The fetch stored last before moment k, and when it was stored, read off the run alone. */
  ghost function LastStored(states: seq<State>, events: seq<Event>, k: nat): Option<(nat, int)>
    requires IsRun(states, events) && k < |states|
  {
    if k == 0 then None
    else if events[k - 1].WriteCache? then
      assert Enabled(states[k - 1], events[k - 1]);
      Some((states[k - 1].callers[events[k - 1].c].fetch, states[k - 1].clock))
    else LastStored(states, events, k - 1)
  }

  /** The keys a fetch brought; none if it failed. */
  function FetchedKeys(s: State, fetch: nat): Keys {
    if Succeeded(s, fetch) then s.fetches[fetch].keys.value else []
  }

  lemma {:induction false} CacheIsLastStored(states: seq<State>, events: seq<Event>, k: nat)
    requires IsRun(states, events) && k < |states|
    ensures var s := states[k];
      match LastStored(states, events, k)
      case None => s.source == None && s.keys == []
      case Some((fetch, at)) =>
        s.source == Some(fetch) && s.fetchedAt == at && Succeeded(s, fetch) && s.keys == FetchedKeys(s, fetch)
  {
    RunKeepsInv(states, events, k);
    if k > 0 {
      CacheIsLastStored(states, events, k - 1);
      assert Enabled(states[k - 1], events[k - 1]);
      if !events[k - 1].WriteCache? {
        StepKeepsCache(states[k - 1], events[k - 1]);
      }
    }
  }

  lemma StepKeepsCache(s: State, e: Event)
    requires Enabled(s, e) && !e.WriteCache?
    ensures var t := Step(s, e); t.source == s.source && t.keys == s.keys && t.fetchedAt == s.fetchedAt
  {
  }

  /**
   Over every run: a caller that checks is answered in that very step exactly when it did not force a refresh, a fetch
   that brought keys has been stored, and at most the TTL has passed since; the answer is then the list of the fetch
   stored last. Any other caller goes on to contend.
   */
  lemma FastPathIff(states: seq<State>, events: seq<Event>, k: nat)
    requires IsRun(states, events) && k < |events| && events[k].Check?
    ensures var s, c := states[k], events[k].c; var after := states[k + 1].callers; var stored := LastStored(states, events, k);
      && At(s, c) && s.callers[c].Begin? && c in after
      && (after[c].Done? <==>
            !s.callers[c].force && stored.Some? && FetchedKeys(s, stored.value.0) != []
            && s.clock - stored.value.1 <= s.ttl)
      && (after[c].Done? ==> after[c].answer == Some(FetchedKeys(s, stored.value.0)))
      && (!after[c].Done? ==> after[c] == Contending)
  {
    CacheIsLastStored(states, events, k);
    assert Enabled(states[k], events[k]) && states[k + 1] == Step(states[k], events[k]);
  }

  lemma {:induction false} DoneIsFinal(states: seq<State>, events: seq<Event>, k: nat, m: nat, c: nat)
    requires IsRun(states, events) && k <= m < |states| && At(states[k], c) && states[k].callers[c].Done?
    ensures At(states[m], c) && states[m].callers[c] == states[k].callers[c]
    decreases m
  {
    if k < m {
      DoneIsFinal(states, events, k, m - 1, c);
      assert Enabled(states[m - 1], events[m - 1]) && states[m] == Step(states[m - 1], events[m - 1]);
    }
  }

  /** So within the TTL of a stored list no unforced caller starts a fetch: it has its answer and is never critical. */
  lemma FreshCacheSparesFetches(states: seq<State>, events: seq<Event>, k: nat, m: nat)
    requires IsRun(states, events) && k < |events| && events[k].Check? && k < m < |states|
    requires At(states[k], events[k].c) && states[k].callers[events[k].c] == Begin(false)
    requires var stored := LastStored(states, events, k);
      stored.Some? && FetchedKeys(states[k], stored.value.0) != [] && states[k].clock - stored.value.1 <= states[k].ttl
    ensures var c := events[k].c;
      && At(states[m], c) && states[m].callers[c].Done? && !Critical(states[m].callers[c])
      && states[m].callers[c].answer == Some(FetchedKeys(states[k], LastStored(states, events, k).value.0))
  {
    FastPathIff(states, events, k);
    DoneIsFinal(states, events, k + 1, m, events[k].c);
  }

  // ---- A run with a stale answer ----

  lemma Extend(states: seq<State>, events: seq<Event>, e: Event) returns (more: seq<State>, all: seq<Event>)
    requires IsRun(states, events) && Enabled(states[|events|], e)
    ensures IsRun(more, all) && more[0] == states[0] && more[|all|] == Step(states[|events|], e)
  {
    more, all := states + [Step(states[|events|], e)], events + [e];
    forall k | 0 <= k < |all| ensures Enabled(more[k], all[k]) && more[k + 1] == Step(more[k], all[k]) {
      assert k < |events| ==> more[k] == states[k] && more[k + 1] == states[k + 1] && all[k] == events[k];
    }
  }

  /** One caller fills the empty cache. */
  lemma FirstFetch(ttl: int, clock: int, keys: Keys) returns (states: seq<State>, events: seq<Event>)
    ensures IsRun(states, events) && states[0] == Initial(ttl, clock)
    ensures states[|events|] == State(ttl, clock, keys, clock, false, map[0 := Done(Some(keys), Winner(0))], Some(0), clock,
                                      None, [Fetch(clock, clock, Some(keys))])
  {
    states, events := [Initial(ttl, clock)], [];
    states, events := Extend(states, events, Arrive(0, false));
    assert states[|events|].callers == map[0 := Begin(false)];
    states, events := Extend(states, events, Check(0));
    assert states[|events|].callers == map[0 := Contending];
    states, events := Extend(states, events, CompareExchange(0));
    assert states[|events|].callers == map[0 := Fetching];
    states, events := Extend(states, events, FetchEnds(0, Some(keys)));
    assert states[|events|].callers == map[0 := Fetched(0, keys)];
    states, events := Extend(states, events, WriteCache(0));
    assert states[|events|].callers == map[0 := Stored(0, keys)];
    states, events := Extend(states, events, ClearFlag(0));
    assert states[|events|].callers == map[0 := Cleared(0, Some(keys))];
    states, events := Extend(states, events, NotifyWaiters(0));
    assert states[|events|].callers == map[0 := Done(Some(keys), Winner(0))];
  }

  /** From a stale cache with the flag down: caller 1 wins the exchange and caller 2 parks behind it. */
  lemma WinAndPark(states: seq<State>, events: seq<Event>) returns (more: seq<State>, all: seq<Event>)
    requires IsRun(states, events)
    requires var s := states[|events|]; IsStale(s) && !s.fetching && s.callers.Keys == {0}
    ensures IsRun(more, all) && more[0] == states[0]
    ensures var s := states[|events|];
      more[|all|] == s.(fetching := true, owner := Some(1), startedAt := s.clock,
                        callers := map[0 := s.callers[0], 1 := Fetching, 2 := Waiting])
  {
    var done := states[|events|].callers[0];
    assert states[|events|].callers == map[0 := done];
    more, all := Extend(states, events, Arrive(1, false));
    assert more[|all|].callers == map[0 := done, 1 := Begin(false)];
    more, all := Extend(more, all, Check(1));
    assert more[|all|].callers == map[0 := done, 1 := Contending];
    more, all := Extend(more, all, CompareExchange(1));
    assert more[|all|].callers == map[0 := done, 1 := Fetching];
    more, all := Extend(more, all, Arrive(2, false));
    assert more[|all|].callers == map[0 := done, 1 := Fetching, 2 := Begin(false)];
    more, all := Extend(more, all, Check(2));
    assert more[|all|].callers == map[0 := done, 1 := Fetching, 2 := Contending];
    more, all := Extend(more, all, CompareExchange(2));
    assert more[|all|].callers == map[0 := done, 1 := Fetching, 2 := Parking];
    more, all := Extend(more, all, Park(2));
    assert more[|all|].callers == map[0 := done, 1 := Fetching, 2 := Waiting];
  }

  /** The winner's fetch fails and it wakes the waiter, which reads the cache. */
  lemma FailAndWake(states: seq<State>, events: seq<Event>, keys: Keys) returns (more: seq<State>, all: seq<Event>)
    requires IsRun(states, events)
    requires var s := states[|events|];
      s.callers.Keys == {0, 1, 2} && s.callers[0].Done? && s.callers[1] == Fetching && s.callers[2] == Waiting
    requires states[|events|].keys == keys != [] && |states[|events|].fetches| == 1 && states[|events|].source == Some(0)
    ensures IsRun(more, all) && more[0] == states[0]
    ensures var s, t := states[|events|], more[|all|];
      && t.keys == s.keys && t.fetchedAt == s.fetchedAt && t.clock == s.clock && t.ttl == s.ttl
      && |t.fetches| == 2 && t.fetches[1].keys == None
      && At(t, 2) && t.callers[2] == Done(Some(keys), Waiter(1, Some(0)))
  {
    var done := states[|events|].callers[0];
    assert states[|events|].callers == map[0 := done, 1 := Fetching, 2 := Waiting];
    more, all := Extend(states, events, FetchEnds(1, None));
    assert more[|all|].callers == map[0 := done, 1 := Failed(1), 2 := Waiting];
    more, all := Extend(more, all, ClearFlag(1));
    assert more[|all|].callers == map[0 := done, 1 := Cleared(1, None), 2 := Waiting];
    more, all := Extend(more, all, NotifyWaiters(1));
    assert more[|all|].callers == map[0 := done, 1 := Done(None, Winner(1)), 2 := Woken(1)];
    more, all := Extend(more, all, ReadCache(2));
  }

  /**
   For every TTL and every list of keys a run from the empty cache ends with a waiter answering Ok although the fetch
   that woke it failed and the list it returns is past the TTL.
   */
  lemma StaleAnswerIsReachable(ttl: nat, clock: int, keys: Keys) returns (states: seq<State>, events: seq<Event>)
    requires keys != []
    ensures IsRun(states, events) && states[0] == Initial(ttl, clock)
    ensures var s := states[|events|];
      && At(s, 2) && s.callers[2] == Done(Some(keys), Waiter(1, Some(0)))
      && !Succeeded(s, 1) && IsStale(s)
  {
    states, events := FirstFetch(ttl, clock, keys);
    states, events := Extend(states, events, Tick(ttl + 1));
    states, events := WinAndPark(states, events);
    states, events := FailAndWake(states, events, keys);
  }

  // ---- A lost wake-up ----

  /** On the way to waking the waiters. */
  predicate WillNotify(pc: Pc) {
    Critical(pc) || pc.Cleared?
  }

  ghost predicate WakeupComing(s: State) {
    exists c :: c in s.callers && WillNotify(s.callers[c])
  }

  /** Someone waits and no wake-up is on its way. */
  ghost predicate Stranded(s: State) {
    (exists c :: c in s.callers && s.callers[c].Waiting?) && !WakeupComing(s)
  }

  /** A caller that does not wait before or after its step, and keeps or keeps lacking its duty to notify. */
  lemma MoveKeepsStranded(s: State, t: State, c: nat)
    requires At(t, c) && !t.callers[c].Waiting? && (At(s, c) ==> !s.callers[c].Waiting?)
    requires WillNotify(t.callers[c]) <==> At(s, c) && WillNotify(s.callers[c])
    requires forall d :: d != c ==> (At(t, d) <==> At(s, d)) && (At(s, d) ==> t.callers[d] == s.callers[d])
    ensures Stranded(t) <==> Stranded(s)
    ensures WakeupComing(t) <==> WakeupComing(s)
  {
    assert forall d :: At(s, d) && WillNotify(s.callers[d]) ==> At(t, d) && WillNotify(t.callers[d]);
    assert forall d :: At(t, d) && WillNotify(t.callers[d]) ==> At(s, d) && WillNotify(s.callers[d]);
    assert forall d :: At(s, d) && s.callers[d].Waiting? ==> At(t, d) && t.callers[d].Waiting?;
    assert forall d :: At(t, d) && t.callers[d].Waiting? ==> At(s, d) && s.callers[d].Waiting?;
  }

  lemma ParkStrandsIff(s: State, c: nat)
    requires At(s, c) && s.callers[c].Parking?
    ensures Stranded(Step(s, Park(c))) <==> !WakeupComing(s)
  {
    var t := Step(s, Park(c));
    assert At(t, c) && t.callers[c].Waiting?;
    assert forall d :: d != c ==> (At(t, d) <==> At(s, d)) && (At(s, d) ==> t.callers[d] == s.callers[d]);
    assert forall d :: At(s, d) && WillNotify(s.callers[d]) ==> At(t, d) && WillNotify(t.callers[d]);
    assert forall d :: At(t, d) && WillNotify(t.callers[d]) ==> At(s, d) && WillNotify(s.callers[d]);
  }

  lemma CompareExchangeStrandsNobody(s: State, c: nat)
    requires Inv(s) && At(s, c) && s.callers[c].Contending?
    ensures !Stranded(DoCompareExchange(s, c))
  {
    var t := DoCompareExchange(s, c);
    if s.fetching {
      var owner := s.owner.value;
      assert At(t, owner) && WillNotify(t.callers[owner]);
    } else {
      assert At(t, c) && WillNotify(t.callers[c]);
    }
  }

  lemma NotifyStrandsNobody(s: State, c: nat)
    requires At(s, c) && s.callers[c].Cleared?
    ensures !Stranded(DoNotify(s, c)) && !Stranded(s)
  {
    assert WillNotify(s.callers[c]);
    assert forall d :: d in DoNotify(s, c).callers ==> !DoNotify(s, c).callers[d].Waiting?;
  }

  /**
   No cancellation or panic is needed to strand a waiter: it happens exactly when a caller that lost the exchange parks
   after the winner has woken the others. It lasts exactly until a later caller wins the exchange.
   */
  lemma StrandedIff(s: State, e: Event)
    requires Inv(s) && Enabled(s, e)
    ensures Stranded(Step(s, e)) <==> if Stranded(s) then !e.CompareExchange? else e.Park? && !WakeupComing(s)
  {
    match e
    case Tick(_) => assert Step(s, e).callers == s.callers;
    case Park(c) => ParkStrandsIff(s, c);
    case CompareExchange(c) => CompareExchangeStrandsNobody(s, c);
    case NotifyWaiters(c) => NotifyStrandsNobody(s, c);
    case Arrive(c, force) => MoveKeepsStranded(s, Step(s, e), c);
    case Check(c) => MoveKeepsStranded(s, Step(s, e), c);
    case FetchEnds(c, keys) => MoveKeepsStranded(s, Step(s, e), c);
    case WriteCache(c) => MoveKeepsStranded(s, Step(s, e), c);
    case ClearFlag(c) => MoveKeepsStranded(s, Step(s, e), c);
    case ReadCache(c) => MoveKeepsStranded(s, Step(s, e), c);
  }

  /** Caller 0 fetches for an empty cache; caller 1 has lost the exchange and not parked yet. */
  lemma LoserBetween(ttl: int, clock: int) returns (states: seq<State>, events: seq<Event>)
    ensures IsRun(states, events) && states[0] == Initial(ttl, clock)
    ensures states[|events|] == Initial(ttl, clock).(fetching := true, owner := Some(0),
                                                     callers := map[0 := Fetching, 1 := Parking])
  {
    states, events := [Initial(ttl, clock)], [];
    states, events := Extend(states, events, Arrive(0, false));
    assert states[|events|].callers == map[0 := Begin(false)];
    states, events := Extend(states, events, Check(0));
    assert states[|events|].callers == map[0 := Contending];
    states, events := Extend(states, events, CompareExchange(0));
    assert states[|events|].callers == map[0 := Fetching];
    states, events := Extend(states, events, Arrive(1, false));
    assert states[|events|].callers == map[0 := Fetching, 1 := Begin(false)];
    states, events := Extend(states, events, Check(1));
    assert states[|events|].callers == map[0 := Fetching, 1 := Contending];
    states, events := Extend(states, events, CompareExchange(1));
    assert states[|events|].callers == map[0 := Fetching, 1 := Parking];
  }

  /** Caller 0 ends its fetch and clears the flag while caller 1 is still on its way to parking. */
  lemma WinnerClears(states: seq<State>, events: seq<Event>, keys: Option<Keys>)
    returns (more: seq<State>, all: seq<Event>)
    requires IsRun(states, events)
    requires states[|events|].callers == map[0 := Fetching, 1 := Parking] && states[|events|].fetches == []
    ensures IsRun(more, all) && more[0] == states[0]
    ensures !more[|all|].fetching && more[|all|].callers == map[0 := Cleared(0, keys), 1 := Parking]
  {
    more, all := Extend(states, events, FetchEnds(0, keys));
    if keys.Some? {
      assert more[|all|].callers == map[0 := Fetched(0, keys.value), 1 := Parking];
      more, all := Extend(more, all, WriteCache(0));
      assert more[|all|].callers == map[0 := Stored(0, keys.value), 1 := Parking];
    } else {
      assert more[|all|].callers == map[0 := Failed(0), 1 := Parking];
    }
    more, all := Extend(more, all, ClearFlag(0));
    assert more[|all|].callers == map[0 := Cleared(0, keys), 1 := Parking];
  }

  /** The loser of the exchange that parks last: the winner has come and gone, and it waits with the flag down. */
  lemma StrandedWaiterIsReachable(ttl: int, clock: int, keys: Option<Keys>)
    returns (states: seq<State>, events: seq<Event>)
    ensures IsRun(states, events) && states[0] == Initial(ttl, clock)
    ensures var s := states[|events|];
      Stranded(s) && !s.fetching && s.callers == map[0 := Done(keys, Winner(0)), 1 := Waiting]
  {
    states, events := LoserBetween(ttl, clock);
    states, events := WinnerClears(states, events, keys);
    states, events := Extend(states, events, NotifyWaiters(0));
    assert states[|events|].callers == map[0 := Done(keys, Winner(0)), 1 := Parking];
    states, events := Extend(states, events, Park(1));
    assert states[|events|].callers == map[0 := Done(keys, Winner(0)), 1 := Waiting];
    assert 1 in states[|events|].callers;
  }
}
