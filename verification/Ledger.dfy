/**
 The credit ledger: accounts, delegation keys with spend caps, and the transactions that move credits. Balances are
 whole micro-credits; requested amounts are reals, rounded to six decimals the way the server rounds them.
 */
module Ledger {
  import opened Wrappers

  datatype Account = Account(credits: int, used: int, active: bool)

  datatype DelegatedKey = DelegatedKey(account: string, cap: Option<int>, spent: int, expiresAt: Option<int>, revoked: bool)

  datatype State = State(accounts: map<string, Account>, keys: map<string, DelegatedKey>)

  datatype Error =
    | InvalidInput | Unauthorized | Revoked | Expired | SpendCapExceeded | AccountInvalid | InsufficientCredits
    | NotFound | Forbidden | DuplicateKey

  /** Math.round(n * 1_000_000), in micro-credits: halves round up. */
  function Round6(n: real): int {
    (n * 1000000.0 + 0.5).Floor
  }

  predicate IsDelegation(key: string) {
    "cn-dlg-" <= key
  }

  predicate IsRoot(key: string) {
    "cn-" <= key && !IsDelegation(key)
  }

  function Charge(a: Account, amount: int): Account {
    a.(credits := a.credits - amount, used := a.used + amount)
  }

  /** Deducting from a root key, inside its transaction. */
  function DeductRoot(s: State, key: string, amount: int): (State, Result<int, Error>) {
    if key !in s.accounts || !s.accounts[key].active then (s, Err(Unauthorized))
    else if s.accounts[key].credits < amount then (s, Err(InsufficientCredits))
    else
      (s.(accounts := s.accounts[key := Charge(s.accounts[key], amount)]), Ok(s.accounts[key].credits - amount))
  }

  /** Deducting through a delegation key, inside its transaction. */
  function DeductDelegated(s: State, key: string, amount: int, now: int): (State, Result<int, Error>) {
    if key !in s.keys then (s, Err(Unauthorized))
    else
      var dk := s.keys[key];
      if dk.revoked then (s, Err(Revoked))
      else if dk.expiresAt.Some? && dk.expiresAt.value < now then (s, Err(Expired))
      else if dk.cap.Some? && dk.spent + amount > dk.cap.value then (s, Err(SpendCapExceeded))
      else if dk.account !in s.accounts || !s.accounts[dk.account].active then (s, Err(AccountInvalid))
      else if s.accounts[dk.account].credits < amount then (s, Err(InsufficientCredits))
      else
        (State(s.accounts[dk.account := Charge(s.accounts[dk.account], amount)],
               s.keys[key := dk.(spent := dk.spent + amount)]),
         Ok(s.accounts[dk.account].credits - amount))
  }

  /** POST /deduct; the result is the remaining balance of the account charged. */
  function Deduct(s: State, key: string, requested: real, hasReason: bool, now: int): (State, Result<int, Error>) {
    if key == "" then (s, Err(Unauthorized))
    else if requested <= 0.0 || !hasReason then (s, Err(InvalidInput))
    else if IsRoot(key) then DeductRoot(s, key, Round6(requested))
    else if IsDelegation(key) then DeductDelegated(s, key, Round6(requested), now)
    else (s, Err(Unauthorized))
  }

  predicate ResolvesRoot(s: State, key: string) {
    IsRoot(key) && key in s.accounts && s.accounts[key].active
  }

  /** POST /keys/delegate: a cap that is not positive means no cap. */
  function Issue(s: State, root: string, random: string, cap: Option<real>, expiresAt: Option<int>)
    : (State, Result<string, Error>)
  {
    var newKey := "cn-dlg-" + random;
    if !ResolvesRoot(s, root) then (s, Err(Unauthorized))
    else if newKey in s.keys then (s, Err(DuplicateKey))
    else
      var capCredits := if cap.Some? && cap.value > 0.0 then Some(Round6(cap.value)) else None;
      (s.(keys := s.keys[newKey := DelegatedKey(root, capCredits, 0, expiresAt, false)]), Ok(newKey))
  }

  /** DELETE /keys/delegated/:key; the result says whether the key was revoked before. */
  function Revoke(s: State, root: string, target: string): (State, Result<bool, Error>) {
    if !ResolvesRoot(s, root) then (s, Err(Unauthorized))
    else if target !in s.keys then (s, Err(NotFound))
    else if s.keys[target].account != root then (s, Err(Forbidden))
    else if s.keys[target].revoked then (s, Ok(true))
    else (s.(keys := s.keys[target := s.keys[target].(revoked := true)]), Ok(false))
  }

  datatype Event =
    | DoDeduct(key: string, requested: real, hasReason: bool, now: int)
    | DoIssue(root: string, random: string, cap: Option<real>, expiresAt: Option<int>)
    | DoRevoke(root: string, target: string)

  function Step(s: State, e: Event): State {
    match e
    case DoDeduct(key, requested, hasReason, now) => Deduct(s, key, requested, hasReason, now).0
    case DoIssue(root, random, cap, expiresAt) => Issue(s, root, random, cap, expiresAt).0
    case DoRevoke(root, target) => Revoke(s, root, target).0
  }

  function Run(s: State, events: seq<Event>): State
    decreases |events|
  {
    if events == [] then s else Run(Step(s, events[0]), events[1..])
  }

  // ---- What was billed ----

  predicate Accepted(s: State, e: Event) {
    e.DoDeduct? && Deduct(s, e.key, e.requested, e.hasReason, e.now).1.Ok?
  }

  /** What this step bills to the account, directly or through one of its keys. */
  function BilledByStep(s: State, e: Event, account: string): int {
    if !Accepted(s, e) then 0
    else if IsRoot(e.key) then (if e.key == account then Round6(e.requested) else 0)
    else if e.key in s.keys && s.keys[e.key].account == account then Round6(e.requested)
    else 0
  }

  function ViaByStep(s: State, e: Event, key: string): int {
    if Accepted(s, e) && IsDelegation(e.key) && e.key == key then Round6(e.requested) else 0
  }

  /** The requests accepted along the run, summed for one account. */
  function Billed(s: State, events: seq<Event>, account: string): int
    decreases |events|
  {
    if events == [] then 0 else BilledByStep(s, events[0], account) + Billed(Step(s, events[0]), events[1..], account)
  }

  /** The requests accepted along the run, summed for one delegation key. */
  function Via(s: State, events: seq<Event>, key: string): int
    decreases |events|
  {
    if events == [] then 0 else ViaByStep(s, events[0], key) + Via(Step(s, events[0]), events[1..], key)
  }

  // ---- Delegated spend of an account ----

  function Share(dk: DelegatedKey, account: string): int {
    if dk.account == account then dk.spent else 0
  }

  ghost function DelegatedSpend(keys: map<string, DelegatedKey>, account: string): int
    decreases |keys|
  {
    if keys == map[] then 0
    else
      var k :| k in keys;
      Share(keys[k], account) + DelegatedSpend(keys - {k}, account)
  }

  lemma {:induction false} SpendSplit(keys: map<string, DelegatedKey>, account: string, k: string)
    requires k in keys
    ensures DelegatedSpend(keys, account) == Share(keys[k], account) + DelegatedSpend(keys - {k}, account)
    decreases |keys|
  {
    var j :| j in keys && DelegatedSpend(keys, account)
                          == Share(keys[j], account) + DelegatedSpend(keys - {j}, account);
    if j != k {
      SpendSplit(keys - {j}, account, k);
      SpendSplit(keys - {k}, account, j);
      assert keys - {j} - {k} == keys - {k} - {j};
    }
  }

  lemma SpendUpdate(keys: map<string, DelegatedKey>, account: string, k: string, dk: DelegatedKey)
    ensures DelegatedSpend(keys[k := dk], account)
         == DelegatedSpend(keys, account) + Share(dk, account) - (if k in keys then Share(keys[k], account) else 0)
  {
    var updated := keys[k := dk];
    SpendSplit(updated, account, k);
    assert updated - {k} == keys - {k};
    if k in keys {
      SpendSplit(keys, account, k);
    } else {
      assert keys - {k} == keys;
    }
  }

  // ---- Invariants ----

  ghost predicate Valid(s: State) {
    && (forall a :: a in s.accounts ==>
          0 <= s.accounts[a].credits && DelegatedSpend(s.keys, a) <= s.accounts[a].used)
    && (forall k :: k in s.keys ==>
          && s.keys[k].account in s.accounts
          && 0 <= s.keys[k].spent
          && (s.keys[k].cap.Some? ==> s.keys[k].spent <= s.keys[k].cap.value))
  }

  /** Rewriting one key and charging one account for what the key's spend grew by. */
  lemma KeyChangeKeepsValid(s: State, t: State, k: string, dk: DelegatedKey, amount: int)
    requires Valid(s) && t.keys == s.keys[k := dk] && dk.account in s.accounts && 0 <= dk.spent
    requires dk.cap.Some? ==> dk.spent <= dk.cap.value
    requires dk.spent == amount + (if k in s.keys then s.keys[k].spent else 0)
    requires k in s.keys ==> s.keys[k].account == dk.account
    requires amount <= s.accounts[dk.account].credits
    requires t.accounts == s.accounts[dk.account := Charge(s.accounts[dk.account], amount)]
    ensures Valid(t)
  {
    forall a | a in t.accounts ensures 0 <= t.accounts[a].credits && DelegatedSpend(t.keys, a) <= t.accounts[a].used {
      SpendUpdate(s.keys, a, k, dk);
    }
  }

  lemma StepKeepsValid(s: State, e: Event)
    requires Valid(s)
    ensures Valid(Step(s, e))
  {
    var t := Step(s, e);
    if t != s {
      match e
      case DoDeduct(key, requested, _, _) =>
        if IsDelegation(key) {
          KeyChangeKeepsValid(s, t, key, t.keys[key], Round6(requested));
        }
      case DoIssue(root, random, _, _) =>
        assert Charge(s.accounts[root], 0) == s.accounts[root];
        KeyChangeKeepsValid(s, t, "cn-dlg-" + random, t.keys["cn-dlg-" + random], 0);
      case DoRevoke(_, target) =>
        assert Charge(s.accounts[s.keys[target].account], 0) == s.accounts[s.keys[target].account];
        KeyChangeKeepsValid(s, t, target, t.keys[target], 0);
    }
  }

  /**
   Over every interleaving: balances stay non-negative, every key stays within its cap, and what an account's keys
   spent together never exceeds what the account used.
   */
  lemma {:induction false} RunKeepsValid(s: State, events: seq<Event>)
    requires Valid(s)
    ensures Valid(Run(s, events))
    decreases |events|
  {
    if events != [] {
      StepKeepsValid(s, events[0]);
      RunKeepsValid(Step(s, events[0]), events[1..]);
    }
  }

  /**
   Conservation: credits and credits used move by exactly what was billed, in opposite directions, so their sum never
   changes; no account is created or lost.
   */
  lemma {:induction false} RunConservesCredits(s: State, events: seq<Event>, account: string)
    requires account in s.accounts
    ensures var t := Run(s, events);
      && t.accounts.Keys == s.accounts.Keys
      && t.accounts[account].credits == s.accounts[account].credits - Billed(s, events, account)
      && t.accounts[account].used == s.accounts[account].used + Billed(s, events, account)
    decreases |events|
  {
    if events != [] {
      StepConservesCredits(s, events[0], account);
      RunConservesCredits(Step(s, events[0]), events[1..], account);
    }
  }

  lemma StepConservesCredits(s: State, e: Event, account: string)
    requires account in s.accounts
    ensures var t := Step(s, e);
      && t.accounts.Keys == s.accounts.Keys
      && t.accounts[account].credits == s.accounts[account].credits - BilledByStep(s, e, account)
      && t.accounts[account].used == s.accounts[account].used + BilledByStep(s, e, account)
  {
  }

  /** An accepted deduction answers with the balance the charged account is left with. */
  lemma AcceptedAnswersNewBalance(s: State, e: Event)
    requires Valid(s) && Accepted(s, e)
    ensures var account := if IsRoot(e.key) then e.key else s.keys[e.key].account;
      && account in s.accounts
      && Deduct(s, e.key, e.requested, e.hasReason, e.now).1.value == Step(s, e).accounts[account].credits
      && BilledByStep(s, e, account) == Round6(e.requested)
  {
  }

  /** A key's recorded spend grows by exactly the requests accepted through it; owner, cap and expiry never change. */
  lemma {:induction false} RunRecordsSpend(s: State, events: seq<Event>, key: string)
    requires key in s.keys
    ensures var t := Run(s, events);
      && key in t.keys
      && t.keys[key].spent == s.keys[key].spent + Via(s, events, key)
      && t.keys[key].(spent := 0, revoked := false) == s.keys[key].(spent := 0, revoked := false)
    decreases |events|
  {
    if events != [] {
      RunRecordsSpend(Step(s, events[0]), events[1..], key);
    }
  }

  /** A revoked key stays revoked and bills nothing more, whatever follows. */
  lemma {:induction false} RevokedKeyIsFrozen(s: State, events: seq<Event>, key: string)
    requires key in s.keys && s.keys[key].revoked
    ensures key in Run(s, events).keys && Run(s, events).keys[key] == s.keys[key]
    ensures Via(s, events, key) == 0
    decreases |events|
  {
    if events != [] {
      RevokedKeyIsFrozen(Step(s, events[0]), events[1..], key);
    }
  }

  // ---- Revocation ----

  /**
   Revoking answers Ok exactly for an active root and a key it owns, and touches that key alone. From then on, whatever
   follows, the key is revoked, nothing is billed through it, and a well-formed deduction through it is refused as
   revoked.
   */
  lemma RevocationRevokes(s: State, root: string, target: string, events: seq<Event>, requested: real, now: int)
    requires requested > 0.0 && IsDelegation(target)
    ensures var (t, result) := Revoke(s, root, target);
      && (result.Ok? <==>
            && root in s.accounts && IsRoot(root) && s.accounts[root].active
            && target in s.keys && s.keys[target].account == root)
      && (result.Err? ==> t == s)
      && t.accounts == s.accounts && t.keys - {target} == s.keys - {target}
      && (result.Ok? ==>
            && (result.value <==> s.keys[target].revoked)
            && Via(t, events, target) == 0
            && var u := Run(t, events);
               && target in u.keys && u.keys[target].revoked
               && Deduct(u, target, requested, true, now) == (u, Err(Revoked)))
  {
    var (t, result) := Revoke(s, root, target);
    assert t.keys - {target} == s.keys - {target};
    if result.Ok? {
      RevokedKeyIsFrozen(t, events, target);
    }
  }

  /** The owner asked for the key's revocation somewhere along the run. */
  predicate RevocationAsked(events: seq<Event>, key: string, owner: string) {
    exists e :: e in events && e.DoRevoke? && e.target == key && e.root == owner
  }

  lemma {:induction false} RunKeepsActive(s: State, events: seq<Event>, account: string)
    requires account in s.accounts
    ensures account in Run(s, events).accounts && Run(s, events).accounts[account].active == s.accounts[account].active
    decreases |events|
  {
    if events != [] {
      RunKeepsActive(Step(s, events[0]), events[1..], account);
    }
  }

  lemma {:induction false} RunKeepsAccountMissing(s: State, events: seq<Event>, account: string)
    requires account !in s.accounts
    ensures account !in Run(s, events).accounts
    decreases |events|
  {
    if events != [] {
      RunKeepsAccountMissing(Step(s, events[0]), events[1..], account);
    }
  }

  lemma StepRevokesIff(s: State, e: Event, key: string)
    requires key in s.keys
    ensures var owner := s.keys[key].account;
      && key in Step(s, e).keys && Step(s, e).keys[key].account == owner
      && (Step(s, e).keys[key].revoked <==>
            s.keys[key].revoked || (e.DoRevoke? && e.target == key && e.root == owner && ResolvesRoot(s, owner)))
  {
  }

  /** A key is revoked at the end of a run exactly when it was at the start or its active owner asked for it since. */
  lemma {:induction false} RevokedIff(s: State, events: seq<Event>, key: string)
    requires key in s.keys && ResolvesRoot(s, s.keys[key].account)
    ensures key in Run(s, events).keys
    ensures Run(s, events).keys[key].revoked <==>
      s.keys[key].revoked || RevocationAsked(events, key, s.keys[key].account)
    decreases |events|
  {
    if events != [] {
      var t, owner := Step(s, events[0]), s.keys[key].account;
      StepRevokesIff(s, events[0], key);
      RunKeepsActive(s, [events[0]], owner);
      assert [events[0]][1..] == [];
      RevokedIff(t, events[1..], key);
      assert forall e :: e in events <==> e == events[0] || e in events[1..];
    }
  }

  // ---- Acceptance, from the history alone ----

  /**
   A request through a delegation key of an active account is accepted exactly when it is positive and has a reason,
   the owner has not asked to revoke the key, it has not expired, all that went through the key and this request fit
   its cap, and all that was billed to the account and this request fit the account's credits.
   */
  lemma DelegatedAcceptedIff(s: State, events: seq<Event>, e: Event)
    requires e.DoDeduct? && IsDelegation(e.key) && e.key in s.keys && ResolvesRoot(s, s.keys[e.key].account)
    ensures var dk, amount := s.keys[e.key], Round6(e.requested);
      Accepted(Run(s, events), e) <==>
        && e.requested > 0.0 && e.hasReason
        && !dk.revoked && !RevocationAsked(events, e.key, dk.account)
        && (dk.expiresAt == None || e.now <= dk.expiresAt.value)
        && (dk.cap == None || dk.spent + Via(s, events, e.key) + amount <= dk.cap.value)
        && Billed(s, events, dk.account) + amount <= s.accounts[dk.account].credits
  {
    var dk := s.keys[e.key];
    RevokedIff(s, events, e.key);
    RunRecordsSpend(s, events, e.key);
    RunConservesCredits(s, events, dk.account);
    RunKeepsActive(s, events, dk.account);
    var t := Run(s, events);
    assert t.keys[e.key].(spent := 0, revoked := false).account == dk.account;
    assert t.keys[e.key].(spent := 0, revoked := false).cap == dk.cap;
    assert t.keys[e.key].(spent := 0, revoked := false).expiresAt == dk.expiresAt;
  }

  /** A key whose account is missing or inactive bills nothing, in any continuation. */
  lemma KeyOfInactiveAccountIsRefused(s: State, events: seq<Event>, e: Event)
    requires e.DoDeduct? && IsDelegation(e.key) && e.key in s.keys
    requires s.keys[e.key].account in s.accounts ==> !s.accounts[s.keys[e.key].account].active
    ensures !Accepted(Run(s, events), e)
  {
    var account := s.keys[e.key].account;
    RunRecordsSpend(s, events, e.key);
    assert Run(s, events).keys[e.key].(spent := 0, revoked := false).account == account;
    if account in s.accounts {
      RunKeepsActive(s, events, account);
    } else {
      RunKeepsAccountMissing(s, events, account);
    }
  }

  /** A root request is accepted exactly when it is positive, has a reason, and fits what the account has left. */
  lemma RootAcceptedIff(s: State, events: seq<Event>, e: Event)
    requires e.DoDeduct? && IsRoot(e.key)
    ensures Accepted(Run(s, events), e) <==>
      && e.requested > 0.0 && e.hasReason && e.key in s.accounts && s.accounts[e.key].active
      && Billed(s, events, e.key) + Round6(e.requested) <= s.accounts[e.key].credits
  {
    if e.key in s.accounts {
      RunConservesCredits(s, events, e.key);
      RunKeepsActive(s, events, e.key);
    } else {
      RunKeepsAccountMissing(s, events, e.key);
    }
  }

  /** A refused request moves nothing, and a key without the product's prefix is always refused. */
  lemma RefusedRequestChangesNothing(s: State, e: Event)
    requires e.DoDeduct?
    ensures !Accepted(s, e) ==> Step(s, e) == s
    ensures !("cn-" <= e.key) ==> !Accepted(s, e)
  {
  }

  /** The reason a refusal names holds. */
  predicate Justified(s: State, e: Event, error: Error)
    requires e.DoDeduct?
  {
    var dlg, amount := IsDelegation(e.key) && e.key in s.keys, Round6(e.requested);
    var account := if dlg then s.keys[e.key].account else e.key;
    match error
    case InvalidInput => e.requested <= 0.0 || !e.hasReason
    case Unauthorized => !dlg && (e.key !in s.accounts || !s.accounts[e.key].active || !IsRoot(e.key))
    case Revoked => dlg && s.keys[e.key].revoked
    case Expired => dlg && s.keys[e.key].expiresAt.Some? && s.keys[e.key].expiresAt.value < e.now
    case SpendCapExceeded => dlg && s.keys[e.key].cap.Some? && s.keys[e.key].spent + amount > s.keys[e.key].cap.value
    case AccountInvalid => dlg && (account !in s.accounts || !s.accounts[account].active)
    case InsufficientCredits => account in s.accounts && s.accounts[account].credits < amount
    case _ => false
  }

  /** Every refusal of a deduction, of a revocation and of an issue names a reason that holds. */
  lemma RefusalsAreJustified(s: State, e: Event)
    ensures e.DoDeduct? ==>
      var result := Deduct(s, e.key, e.requested, e.hasReason, e.now).1; result.Err? ==> Justified(s, e, result.error)
    ensures e.DoRevoke? ==>
      match Revoke(s, e.root, e.target).1
      case Ok(_) => true
      case Err(NotFound) => e.target !in s.keys
      case Err(Forbidden) => e.target in s.keys && s.keys[e.target].account != e.root
      case Err(error) => error == Unauthorized && !ResolvesRoot(s, e.root)
    ensures e.DoIssue? ==>
      match Issue(s, e.root, e.random, e.cap, e.expiresAt).1
      case Ok(_) => true
      case Err(DuplicateKey) => "cn-dlg-" + e.random in s.keys
      case Err(error) => error == Unauthorized && !ResolvesRoot(s, e.root)
  {
  }

  /**
   Issuing answers Ok exactly for an active root drawing a free key, and adds that key alone: unspent, live, owned by
   the root, and with the cap and expiry asked for. What goes through it in any continuation never exceeds the cap, and
   nothing goes through it after its expiry.
   */
  lemma FreshKeyKeepsItsTerms(
    s: State, root: string, random: string, cap: Option<real>, expiresAt: Option<int>, events: seq<Event>, e: Event)
    requires Valid(s) && e.DoDeduct? && e.key == "cn-dlg-" + random
    ensures var (t, result) := Issue(s, root, random, cap, expiresAt);
      && (result.Ok? <==> IsRoot(root) && root in s.accounts && s.accounts[root].active && "cn-dlg-" + random !in s.keys)
      && (result.Err? ==> t == s)
      && t.accounts == s.accounts
      && (result.Ok? ==>
            && result.value == "cn-dlg-" + random && t.keys - {result.value} == s.keys
            && (cap.Some? && cap.value > 0.0 ==> Via(t, events, result.value) <= Round6(cap.value))
            && (Accepted(Run(t, events), e) <==>
                  && e.requested > 0.0 && e.hasReason && !RevocationAsked(events, e.key, root)
                  && (expiresAt == None || e.now <= expiresAt.value)
                  && (cap.Some? && cap.value > 0.0 ==> Via(t, events, e.key) + Round6(e.requested) <= Round6(cap.value))
                  && Billed(t, events, root) + Round6(e.requested) <= s.accounts[root].credits))
  {
    var (t, result) := Issue(s, root, random, cap, expiresAt);
    if result.Ok? {
      assert t.keys - {result.value} == s.keys;
      assert "cn-dlg-" <= "cn-dlg-" + random;
      if cap.Some? && cap.value > 0.0 {
        FreshKeyWithinCap(s, root, random, cap, expiresAt, events);
      }
      DelegatedAcceptedIff(t, events, e);
    }
  }

  lemma FreshKeyWithinCap(
    s: State, root: string, random: string, cap: Option<real>, expiresAt: Option<int>, events: seq<Event>)
    requires Valid(s) && Issue(s, root, random, cap, expiresAt).1.Ok? && cap.Some? && cap.value > 0.0
    ensures Via(Issue(s, root, random, cap, expiresAt).0, events, "cn-dlg-" + random) <= Round6(cap.value)
  {
    var t, key := Issue(s, root, random, cap, expiresAt).0, "cn-dlg-" + random;
    assert Step(s, DoIssue(root, random, cap, expiresAt)) == t;
    StepKeepsValid(s, DoIssue(root, random, cap, expiresAt));
    RunKeepsValid(t, events);
    RunRecordsSpend(t, events, key);
    assert Run(t, events).keys[key].(spent := 0, revoked := false).cap == t.keys[key].cap;
  }

  // ---- Rounding ----

  /** Rounding is off by at most half a micro-credit and is exact on whole micro-credits. */
  lemma Round6IsNearest(n: real, k: int)
    ensures n * 1000000.0 - 0.5 < Round6(n) as real <= n * 1000000.0 + 0.5
    ensures Round6(k as real / 1000000.0) == k
  {
    assert k as real / 1000000.0 * 1000000.0 == k as real;
  }

  /**
   The positivity check looks at the amount before it is rounded, so a positive request below half a micro-credit is
   accepted and changes nothing; at or above that, an accepted request always charges, whichever kind of key it uses.
   */
  lemma PositiveRequestIsFreeIff(s: State, e: Event)
    requires Accepted(s, e)
    ensures Step(s, e) == s <==> e.requested < 0.0000005
  {
    var t, amount := Step(s, e), Round6(e.requested);
    var account := if IsRoot(e.key) then e.key else s.keys[e.key].account;
    if amount == 0 {
      assert t.accounts == s.accounts && t.keys == s.keys;
    } else {
      assert t.accounts[account].credits == s.accounts[account].credits - amount;
    }
  }
}
