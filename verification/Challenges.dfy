/** The WebAuthn challenge store: one-time challenges with a five-minute life, swept on every store. */
module Challenges {
  import opened Wrappers

  const CHALLENGE_TTL_MS := 300000

  datatype Pending = Pending(challenge: string, expiresAt: int)

  type Store = map<string, Pending>

  function Clean(s: Store, now: int): Store {
    map key | key in s && s[key].expiresAt > now :: s[key]
  }

  function Save(s: Store, key: string, challenge: string, now: int): Store {
    Clean(s, now)[key := Pending(challenge, now + CHALLENGE_TTL_MS)]
  }

  function Consume(s: Store, key: string, now: int): (Store, Option<string>) {
    if key !in s then (s, None)
    else (s - {key}, if s[key].expiresAt <= now then None else Some(s[key].challenge))
  }

  datatype Event =
    | DoSave(key: string, challenge: string, now: int)
    | DoConsume(key: string, now: int)
    | DoClean(now: int)

  function Step(s: Store, e: Event): Store {
    match e
    case DoSave(key, challenge, now) => Save(s, key, challenge, now)
    case DoConsume(key, now) => Consume(s, key, now).0
    case DoClean(now) => Clean(s, now)
  }

  function Run(events: seq<Event>): Store
    decreases |events|
  {
    if events == [] then map[] else Step(Run(events[..|events| - 1]), events[|events| - 1])
  }

  /** The challenge saved under the key, with five minutes to live, and not consumed since; sweeps play no part in it. */
  function Outstanding(events: seq<Event>, key: string): Option<Pending>
    decreases |events|
  {
    if events == [] then None
    else
      match events[|events| - 1]
      case DoSave(k, challenge, now) =>
        if k == key then Some(Pending(challenge, now + 300000)) else Outstanding(events[..|events| - 1], key)
      case DoConsume(k, _) => if k == key then None else Outstanding(events[..|events| - 1], key)
      case DoClean(_) => Outstanding(events[..|events| - 1], key)
  }

  /** The clock never goes back and has not passed `now`. */
  predicate Monotone(events: seq<Event>, now: int)
    decreases |events|
  {
    events != [] ==> events[|events| - 1].now <= now && Monotone(events[..|events| - 1], events[|events| - 1].now)
  }

  /** The store holds the outstanding challenge of each key, except that expired ones may be gone. */
  lemma {:induction false} StoreHoldsOutstanding(events: seq<Event>, key: string, now: int)
    requires Monotone(events, now)
    ensures key in Run(events) ==> Outstanding(events, key) == Some(Run(events)[key])
    ensures key !in Run(events) ==>
      Outstanding(events, key).None? || Outstanding(events, key).value.expiresAt <= now
    decreases |events|
  {
    if events != [] {
      StoreHoldsOutstanding(events[..|events| - 1], key, events[|events| - 1].now);
    }
  }

  /**
   Consuming answers from the history alone: the challenge last saved under the key, if nothing consumed it since and
   it is younger than its life. Sweeps, which the history ignores, are unobservable, and no challenge is answered twice.
   */
  lemma ConsumeAnswersOutstanding(events: seq<Event>, key: string, now: int)
    requires Monotone(events, now)
    ensures Consume(Run(events), key, now).1
         == match Outstanding(events, key)
            case Some(p) => if now < p.expiresAt then Some(p.challenge) else None
            case None => None
  {
    StoreHoldsOutstanding(events, key, now);
  }

  /** Some challenge was saved under the key after the moment. */
  predicate SavedAfter(events: seq<Event>, key: string, moment: int) {
    exists e :: e in events && e.DoSave? && e.key == key && moment < e.now
  }

  lemma {:induction false} OutstandingWasSaved(events: seq<Event>, key: string)
    requires Outstanding(events, key).Some?
    ensures SavedAfter(events, key, Outstanding(events, key).value.expiresAt - 300001)
    decreases |events|
  {
    var last, earlier := events[|events| - 1], events[..|events| - 1];
    assert last in events && forall e :: e in earlier ==> e in events;
    if !(last.DoSave? && last.key == key) {
      OutstandingWasSaved(earlier, key);
    }
  }

  /** What sweeping is for: a save or a sweep leaves only challenges of the last five minutes behind. */
  lemma SweepKeepsRecentOnly(events: seq<Event>, last: Event, key: string)
    requires Monotone(events, last.now) && !last.DoConsume? && key in Step(Run(events), last)
    ensures SavedAfter(events + [last], key, last.now - 300000)
  {
    assert last in events + [last] && forall e :: e in events ==> e in events + [last];
    if !(last.DoSave? && last.key == key) {
      StoreHoldsOutstanding(events, key, last.now);
      OutstandingWasSaved(events, key);
    }
  }

  class ChallengeStore {
    var pending: Store

    constructor ()
      ensures pending == map[]
    {
      pending := map[];
    }

    method CleanExpired(now: int)
      modifies this
      ensures pending == Clean(old(pending), now)
    {
      var keys := pending.Keys;
      while keys != {}
        invariant keys <= pending.Keys <= old(pending).Keys
        invariant forall k :: k in pending ==> pending[k] == old(pending)[k]
        invariant forall k :: k in old(pending) ==> (k in pending <==> k in keys || old(pending)[k].expiresAt > now)
        decreases keys
      {
        var key :| key in keys;
        if pending[key].expiresAt <= now {
          pending := pending - {key};
        }
        keys := keys - {key};
      }
    }

    method StoreChallenge(key: string, challenge: string, now: int)
      modifies this
      ensures pending == Save(old(pending), key, challenge, now)
    {
      CleanExpired(now);
      pending := pending[key := Pending(challenge, now + CHALLENGE_TTL_MS)];
    }

    method ConsumeChallenge(key: string, now: int) returns (challenge: Option<string>)
      modifies this
      ensures (pending, challenge) == Consume(old(pending), key, now)
    {
      if key !in pending {
        return None;
      }
      var entry := pending[key];
      pending := pending - {key};
      if entry.expiresAt <= now {
        return None;
      }
      return Some(entry.challenge);
    }
  }
}
