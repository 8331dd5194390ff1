/** Properties of whole rotation histories: the pre-rotation chain, retries, adoption, and where rows come from. */
module RotationHistory {
  import opened Wrappers
  import opened Base64
  import opened Vault
  import opened Rotation
  import opened RotationProofs

  // ---- What one step does to one row ----

  /** The columns of a credential row that a rotation or a revocation never rewrites. */
  function Identity(row: CredentialRow): CredentialRow {
    row.(secretKey := "", revoked := false)
  }

  /** The two ways a credential row goes away. */
  predicate Deletes(s: State, e: Event, c: string)
    requires c in s.credentials
  {
    || (e.DoAbort? && e.identityId in s.staged && s.staged[e.identityId].credentialId == c)
    || (e.DoWipe? && e.identityId == s.credentials[c].identityId)
  }

  predicate Promotes(s: State, e: Event, identityId: string) {
    e.DoCommit? && e.identityId == identityId && identityId in s.staged
  }

  lemma StepKeepsRow(p: Provider, s: State, e: Event, c: string)
    requires c in s.credentials
    ensures c in Step(p, s, e).credentials <==> !Deletes(s, e, c)
    ensures c in Step(p, s, e).credentials ==> Identity(Step(p, s, e).credentials[c]) == Identity(s.credentials[c])
  {
  }

  lemma StepKeepsIdentityRow(p: Provider, s: State, e: Event, i: string)
    requires i in s.identities
    ensures i in Step(p, s, e).identities <==> !(e.DoWipe? && e.identityId == i)
    ensures i in Step(p, s, e).identities && !Promotes(s, e, i) ==> Step(p, s, e).identities[i] == s.identities[i]
    ensures Promotes(s, e, i) ==> Step(p, s, e).identities[i].currentCredentialId == s.staged[i].credentialId
  {
  }

  /** A stage ends by its own commit or abort, or with the process. */
  lemma StepKeepsStage(p: Provider, s: State, e: Event, i: string)
    requires i in s.staged && !e.DoRestart?
    ensures i in Step(p, s, e).staged <==> !((e.DoCommit? || e.DoAbort?) && e.identityId == i)
    ensures i in Step(p, s, e).staged ==> Step(p, s, e).staged[i] == s.staged[i]
  {
  }

  // ---- The hash-committed chain ----

  datatype Link = Link(publicKey: Bytes, nextCommitment: string)

  function CurrentLink(s: State, identityId: string): Option<Link> {
    if identityId in s.identities && s.identities[identityId].currentCredentialId in s.credentials then
      var row := s.credentials[s.identities[identityId].currentCredentialId];
      Some(Link(Decode(row.publicKey), row.nextCommitment))
    else None
  }

  /** What each commit of the run made current for the identity, in order. */
  function Lineage(p: Provider, s: State, events: seq<Event>, identityId: string): seq<Link>
    decreases |events|
  {
    if events == [] then []
    else
      var t := Step(p, s, events[0]);
      (if Promotes(s, events[0], identityId) && CurrentLink(t, identityId).Some? then [CurrentLink(t, identityId).value] else [])
      + Lineage(p, t, events[1..], identityId)
  }

  /** Every link after the first is the key its predecessor committed to. */
  ghost predicate Chained(p: Provider, links: seq<Link>) {
    forall k :: 0 < k < |links| ==> p.Commit(links[k].publicKey) == links[k - 1].nextCommitment
  }

  predicate Wipes(events: seq<Event>, identityId: string) {
    exists e :: e in events && e.DoWipe? && e.identityId == identityId
  }

  lemma OtherStepKeepsLink(p: Provider, s: State, e: Event, identityId: string)
    requires Valid(p, s) && identityId in s.identities
    requires !(e.DoWipe? && e.identityId == identityId) && !Promotes(s, e, identityId)
    ensures identityId in Step(p, s, e).identities
    ensures CurrentLink(Step(p, s, e), identityId) == CurrentLink(s, identityId)
  {
    assert Committed(p, s, identityId);
    var current := s.identities[identityId].currentCredentialId;
    if e.DoAbort? && e.identityId in s.staged {
      assert StageSound(p, s, e.identityId);
    }
    StepKeepsIdentityRow(p, s, e, identityId);
    StepKeepsRow(p, s, e, current);
  }

  lemma CommitFollowsLink(p: Provider, s: State, e: Event, identityId: string)
    requires Valid(p, s) && identityId in s.identities && Promotes(s, e, identityId)
    ensures var t := Step(p, s, e);
      && identityId in t.identities
      && CurrentLink(s, identityId).Some? && CurrentLink(t, identityId).Some?
      && p.Commit(CurrentLink(t, identityId).value.publicKey) == CurrentLink(s, identityId).value.nextCommitment
  {
    assert Committed(p, s, identityId);
    assert StageSound(p, s, identityId);
  }

  /** The claim of `LineageIsChained` for one run. */
  ghost predicate ChainHolds(p: Provider, s: State, events: seq<Event>, identityId: string) {
    && CurrentLink(s, identityId).Some?
    && var links := [CurrentLink(s, identityId).value] + Lineage(p, s, events, identityId);
       && Chained(p, links)
       && CurrentLink(Run(p, s, events), identityId) == Some(links[|links| - 1])
  }

  lemma ChainHoldsCons(p: Provider, s: State, t: State, events: seq<Event>, identityId: string)
    requires events != [] && t == Step(p, s, events[0]) && ChainHolds(p, t, events[1..], identityId)
    requires CurrentLink(s, identityId).Some?
    requires !Promotes(s, events[0], identityId) ==> CurrentLink(t, identityId) == CurrentLink(s, identityId)
    requires Promotes(s, events[0], identityId) ==>
      p.Commit(CurrentLink(t, identityId).value.publicKey) == CurrentLink(s, identityId).value.nextCommitment
    ensures ChainHolds(p, s, events, identityId)
  {
    var link := CurrentLink(s, identityId).value;
    var rest := [CurrentLink(t, identityId).value] + Lineage(p, t, events[1..], identityId);
    var links := [link] + Lineage(p, s, events, identityId);
    if Promotes(s, events[0], identityId) {
      assert links == [link] + rest;
      forall k | 0 < k < |links| ensures p.Commit(links[k].publicKey) == links[k - 1].nextCommitment {
        if k > 1 { assert links[k] == rest[k - 1] && links[k - 1] == rest[k - 2]; }
      }
    } else {
      assert links == rest;
    }
  }

  /**
   Along the commits of any run, each new current public key matches the commitment made by the one it replaces,
   and the last of them is the one in force at the end.
   */
  lemma {:induction false} LineageIsChained(p: Provider, s: State, events: seq<Event>, identityId: string)
    requires p.Lawful() && Valid(p, s) && AllowedRun(p, s, events)
    requires identityId in s.identities && !Wipes(events, identityId)
    ensures ChainHolds(p, s, events, identityId)
    decreases |events|
  {
    assert Committed(p, s, identityId);
    if events != [] {
      assert events[0] in events;
      assert forall e :: e in events[1..] ==> e in events;
      var t := Step(p, s, events[0]);
      StepKeepsValid(p, s, events[0]);
      if Promotes(s, events[0], identityId) {
        CommitFollowsLink(p, s, events[0], identityId);
      } else {
        OtherStepKeepsLink(p, s, events[0], identityId);
      }
      LineageIsChained(p, t, events[1..], identityId);
      ChainHoldsCons(p, s, t, events, identityId);
    }
  }

  /** With a collision-free commitment, the predecessor admits no key but the one the identity stores as next. */
  lemma CommitmentPinsNextKey(p: Provider, s: State, identityId: string, publicKey: Bytes)
    requires Valid(p, s) && identityId in s.identities
    requires forall a: Bytes, b: Bytes :: p.Commit(a) == p.Commit(b) ==> a == b
    ensures Committed(p, s, identityId)
    ensures p.Commit(publicKey) == CurrentLink(s, identityId).value.nextCommitment
       <==> publicKey == Decode(s.identities[identityId].nextPublicKey)
  {
    assert Committed(p, s, identityId);
  }

  // ---- Stage, abort, restart and retry ----

  predicate TouchesIdentity(events: seq<Event>, identityId: string) {
    exists e :: e in events && (e.DoWipe? || e.DoCommit?) && e.identityId == identityId
  }

  /** Until a commit or a discard, nothing moves the identity's row; in particular abort and restart do not. */
  lemma {:induction false} RunKeepsIdentityRow(p: Provider, s: State, events: seq<Event>, identityId: string)
    requires identityId in s.identities && !TouchesIdentity(events, identityId)
    ensures identityId in Run(p, s, events).identities
    ensures Run(p, s, events).identities[identityId] == s.identities[identityId]
    decreases |events|
  {
    if events != [] {
      assert events[0] in events;
      assert forall e :: e in events[1..] ==> e in events;
      RunKeepsIdentityRow(p, Step(p, s, events[0]), events[1..], identityId);
    }
  }

  /** A stage goes through exactly when the caller's view is current; the vault never gets in its way. */
  lemma StageSucceedsIff(
    p: Provider, s: State, i: string, oldId: string, issuedAt: int, random: TokenBytes, secret: Bytes, iv: Iv)
    requires Valid(p, s)
    ensures Stage(p, s, i, oldId, issuedAt, random, secret, iv).1.Ok?
       <==> i !in s.staged && i in s.identities && s.identities[i].currentCredentialId == oldId
            && MintBearerToken(random) !in s.credentials
  {
    if i in s.identities {
      assert NextOpens(p, s.kek, i, s.identities[i]);
    }
  }

  /**
   However often a rotation is staged, aborted or lost to a restart, a later stage promotes the same key pair: the
   public key stored as next, with the secret the next slot held at the start.
   */
  lemma RestagingPromotesSamePair(
    p: Provider, s: State, events: seq<Event>, i: string, oldId: string, issuedAt: int, random: TokenBytes,
    secret: Bytes, iv: Iv)
    requires p.Lawful() && Valid(p, s) && AllowedRun(p, s, events)
    requires i in s.identities && !TouchesIdentity(events, i)
    ensures var t := Run(p, s, events); var (u, result) := Stage(p, t, i, oldId, issuedAt, random, secret, iv);
      result.Ok? ==>
        && result.value.publicKey == Decode(s.identities[i].nextPublicKey)
        && result.value.credentialId in u.credentials
        && Decode(u.credentials[result.value.credentialId].publicKey) == Decode(s.identities[i].nextPublicKey)
        && DecryptSecret(p.aead, u.kek, u.credentials[result.value.credentialId].secretKey, result.value.credentialId)
           == DecryptSecret(p.aead, s.kek, s.identities[i].nextSecretKey, NextSecretAad(i))
  {
    var t := Run(p, s, events);
    RunKeepsIdentityRow(p, s, events, i);
    RunKeepsValid(p, s, events);
    RunKeepsReads(p, s, events, s.identities[i].nextSecretKey, NextSecretAad(i));
    assert NextOpens(p, s.kek, i, s.identities[i]);
    var ident := t.identities[i];
    var promoted := DecryptSecret(p.aead, t.kek, ident.nextSecretKey, NextSecretAad(i)).value;
    NewRowOpens(p, t.kek, MintBearerToken(random), i, promoted, Decode(ident.nextPublicKey), p.publicOf(secret),
                issuedAt, ident.ttlMs, iv);
  }

  /** What a process could read it can still read at the end of the run. */
  lemma {:induction false} RunKeepsReads(p: Provider, s: State, events: seq<Event>, stored: string, aad: string)
    requires AllowedRun(p, s, events) && DecryptSecret(p.aead, s.kek, stored, aad).Ok?
    ensures DecryptSecret(p.aead, Run(p, s, events).kek, stored, aad) == DecryptSecret(p.aead, s.kek, stored, aad)
    decreases |events|
  {
    if events != [] {
      var t := Step(p, s, events[0]);
      if s.kek == None {
        ConfiguringKekKeepsReads(p.aead, t.kek, stored, aad);
      } else {
        assert t.kek == s.kek;
      }
      RunKeepsReads(p, t, events[1..], stored, aad);
    }
  }

  /** In every sound state a live credential, staged or current, signs what its public key verifies. */
  lemma LiveCredentialSigns(p: Provider, s: State, credentialId: string, message: Bytes)
    requires p.Lawful() && Valid(p, s)
    ensures Sign(p, s, credentialId, message).Ok?
       <==> credentialId in s.credentials && !s.credentials[credentialId].revoked
    ensures Sign(p, s, credentialId, message).Ok? ==>
      Verify(p, s, credentialId, message, Sign(p, s, credentialId, message).value)
  {
    if credentialId in s.credentials {
      assert RowOpens(p, s.kek, credentialId, s.credentials[credentialId]);
    }
  }

  // ---- A discard overtaken by a stage ----

  /**
   If a stage of the identity lands between a discard's abort and its wipe, re-inception followed by a commit of
   that leftover stage makes a credential current that no longer exists. `WipeKeepsValidIff` is the exact guard.
   */
  lemma OvertakenDiscardDanglesCurrent(p: Provider, s: State, inception: Event, commit: Event)
    requires Valid(p, s) && inception.DoIssue? && commit.DoCommit?
    requires inception.identityId == commit.identityId && inception.identityId in s.staged
    requires MintBearerToken(inception.random) !in s.credentials
    ensures var t := Step(p, Step(p, Wipe(s, inception.identityId), inception), commit);
      && inception.identityId in t.identities
      && t.identities[inception.identityId].currentCredentialId !in t.credentials
  {
    assert StageSound(p, s, inception.identityId);
    CommitAfterWipe(p, Wipe(s, inception.identityId), inception, commit);
  }

  lemma CommitAfterWipe(p: Provider, wiped: State, inception: Event, commit: Event)
    requires inception.DoIssue? && commit.DoCommit? && inception.identityId == commit.identityId
    requires inception.identityId in wiped.staged && inception.identityId !in wiped.identities
    requires MintBearerToken(inception.random) !in wiped.credentials
    requires wiped.staged[commit.identityId].credentialId !in wiped.credentials
    requires wiped.staged[commit.identityId].credentialId != MintBearerToken(inception.random)
    ensures var t := Step(p, Step(p, wiped, inception), commit);
      && commit.identityId in t.identities
      && t.identities[commit.identityId].currentCredentialId !in t.credentials
  {
    ReissueKeepsStage(p, wiped, inception);
    CommitOnly(p, Step(p, wiped, inception), commit);
  }

  lemma CommitOnly(p: Provider, s: State, e: Event)
    requires e.DoCommit? && e.identityId in s.staged && e.identityId in s.identities
    ensures var t := Step(p, s, e);
      && t.credentials == s.credentials && e.identityId in t.identities
      && t.identities[e.identityId].currentCredentialId == s.staged[e.identityId].credentialId
  {
  }

  lemma ReissueKeepsStage(p: Provider, s: State, e: Event)
    requires e.DoIssue? && e.identityId !in s.identities && MintBearerToken(e.random) !in s.credentials
    ensures var t := Step(p, s, e);
      && t.staged == s.staged && e.identityId in t.identities
      && t.credentials.Keys == s.credentials.Keys + {MintBearerToken(e.random)}
  {
  }

  // ---- Adoption ----

  /** Adoption is all or nothing: an error leaves all three tables alone, a first success adds one row to each. */
  lemma AdoptionIsAllOrNothing(
    p: Provider, s: State, b: string, i: string, issuedAt: int, ttlMs: int, secret: Bytes, nextSecret: Bytes, iv: Iv,
    nextIv: Iv)
    ensures var (t, result) := Adopt(p, s, b, i, issuedAt, ttlMs, secret, nextSecret, iv, nextIv);
      && (result.Err? || result.value.idempotent ==> t == s)
      && (result.Ok? && !result.value.idempotent ==>
            && b !in s.credentials && i !in s.identities && b !in s.adoptions
            && t.credentials.Keys == s.credentials.Keys + {b} && t.credentials - {b} == s.credentials
            && t.identities.Keys == s.identities.Keys + {i} && t.identities - {i} == s.identities
            && t.adoptions.Keys == s.adoptions.Keys + {b} && t.adoptions - {b} == s.adoptions
            && t.identities[i].currentCredentialId == b && t.credentials[b].identityId == i
            && t.adoptions[b] == AdoptionRow(i, issuedAt))
      && (result.Ok? <==> IsBearer(b) && if b in s.adoptions then b in s.credentials
                                         else b !in s.credentials && i !in s.identities)
  {
    var (t, result) := Adopt(p, s, b, i, issuedAt, ttlMs, secret, nextSecret, iv, nextIv);
    if result.Ok? && !result.value.idempotent {
      assert t.credentials - {b} == s.credentials;
      assert t.identities - {i} == s.identities;
      assert t.adoptions - {b} == s.adoptions;
    }
  }

  /** In the table and not staged, so no abort can delete it. */
  ghost predicate Settled(s: State, c: string) {
    c in s.credentials && forall i :: i in s.staged ==> s.staged[i].credentialId != c
  }

  /** Stages are made under tokens that were free, so never under one already in the table. */
  lemma StepStagesElsewhere(p: Provider, s: State, e: Event, c: string, i: string)
    requires c in s.credentials && i in Step(p, s, e).staged
    requires i in s.staged ==> s.staged[i].credentialId != c
    ensures Step(p, s, e).staged[i].credentialId != c
  {
  }

  lemma StepKeepsSettled(p: Provider, s: State, e: Event, c: string)
    requires Settled(s, c) && !(e.DoWipe? && e.identityId == s.credentials[c].identityId)
    ensures var t := Step(p, s, e);
      Settled(t, c) && Identity(t.credentials[c]) == Identity(s.credentials[c])
  {
    var t := Step(p, s, e);
    StepKeepsRow(p, s, e, c);
    forall i | i in t.staged ensures t.staged[i].credentialId != c {
      StepStagesElsewhere(p, s, e, c, i);
    }
  }

  lemma StepKeepsRevoked(p: Provider, s: State, e: Event, c: string)
    requires c in s.credentials && s.credentials[c].revoked && c in Step(p, s, e).credentials
    ensures Step(p, s, e).credentials[c].revoked
  {
  }

  /** Short of a discard, a settled credential keeps its public columns, and a revocation is for good. */
  lemma {:induction false} RunKeepsSettled(p: Provider, s: State, events: seq<Event>, c: string)
    requires Settled(s, c) && !Wipes(events, s.credentials[c].identityId)
    ensures var t := Run(p, s, events);
      && Settled(t, c) && Identity(t.credentials[c]) == Identity(s.credentials[c])
      && (s.credentials[c].revoked ==> t.credentials[c].revoked)
    decreases |events|
  {
    if events != [] {
      assert events[0] in events;
      assert forall e :: e in events[1..] ==> e in events;
      var t := Step(p, s, events[0]);
      StepKeepsSettled(p, s, events[0], c);
      assert t.credentials[c].identityId == Identity(s.credentials[c]).identityId;
      if s.credentials[c].revoked {
        StepKeepsRevoked(p, s, events[0], c);
      }
      RunKeepsSettled(p, t, events[1..], c);
    }
  }

  /** Once revoked, a credential resolves, signs and verifies nothing, at any later time. */
  lemma RevokedCredentialIsDead(
    p: Provider, s: State, events: seq<Event>, c: string, now: int, message: Bytes, signature: Bytes)
    requires Settled(s, c) && !Wipes(events, s.credentials[c].identityId)
    ensures var t := Run(p, Revoke(s, c), events);
      && Lookup(t, c, now) == None
      && Sign(p, t, c, message) == Err(CredentialRevoked)
      && !Verify(p, t, c, message, signature)
  {
    RunKeepsSettled(p, Revoke(s, c), events, c);
  }

  /** Under any KEK and context, a revoked row reads as 64 zero bytes, never as the secret it held. */
  lemma RevokedSecretReadsAsZeros(p: Provider, s: State, c: string, kek: Option<Key>, aad: string)
    requires c in s.credentials
    ensures DecryptSecret(p.aead, kek, Revoke(s, c).credentials[c].secretKey, aad) == Ok(seq(64, _ => 0))
  {
    var zeros: Bytes := seq(64, _ => 0);
    PlainIsNotVersioned(zeros);
    DecodeInvertsEncode(zeros);
  }

  /** The three ways a bearer stops resolving before its expiry: revocation, discard, and the abort of its stage. */
  predicate Ends(s: State, e: Event, c: string)
    requires c in s.credentials
  {
    Deletes(s, e, c) || (e.DoRevoke? && e.credentialId == c)
  }

  predicate EndsDuring(p: Provider, s: State, events: seq<Event>, c: string)
    decreases |events|
  {
    events != [] && c in s.credentials && (Ends(s, events[0], c) || EndsDuring(p, Step(p, s, events[0]), events[1..], c))
  }

  lemma StepResolvesIff(p: Provider, s: State, e: Event, c: string, now: int)
    requires c in s.credentials
    ensures Lookup(Step(p, s, e), c, now) == if Ends(s, e, c) then None else Lookup(s, c, now)
  {
    StepKeepsRow(p, s, e, c);
    if c in Step(p, s, e).credentials {
      assert Step(p, s, e).credentials[c].identityId == Identity(s.credentials[c]).identityId;
      assert Step(p, s, e).credentials[c].expiresAt == Identity(s.credentials[c]).expiresAt;
    }
  }

  lemma {:induction false} RunKeepsResolving(p: Provider, s: State, events: seq<Event>, c: string, now: int)
    requires c in s.credentials && !EndsDuring(p, s, events, c)
    ensures c in Run(p, s, events).credentials && Lookup(Run(p, s, events), c, now) == Lookup(s, c, now)
    decreases |events|
  {
    if events != [] {
      StepKeepsRow(p, s, events[0], c);
      StepResolvesIff(p, s, events[0], c, now);
      RunKeepsResolving(p, Step(p, s, events[0]), events[1..], c, now);
    }
  }

  /** The token a mint hands out, and when it expires. */
  function MintedId(e: Event): string
    requires e.DoIssue? || e.DoHalfIssue? || e.DoStage? || e.DoAdopt?
  {
    if e.DoAdopt? then e.bearer else MintBearerToken(e.random)
  }

  function MintedExpiry(s: State, e: Event): int
    requires e.DoIssue? || e.DoHalfIssue? || e.DoAdopt? || (e.DoStage? && e.identityId in s.identities)
  {
    e.issuedAt + if e.DoStage? then s.identities[e.identityId].ttlMs else e.ttlMs
  }

  predicate LiveRow(s: State, c: string, identityId: string, expiry: int) {
    && c in s.credentials && !s.credentials[c].revoked
    && s.credentials[c].identityId == identityId && s.credentials[c].expiresAt == expiry
  }

  lemma MintedRowIsLive(p: Provider, s: State, e: Event)
    requires e.DoIssue? || e.DoHalfIssue? || e.DoAdopt? || (e.DoStage? && e.identityId in s.identities)
    requires Step(p, s, e) != s
    ensures LiveRow(Step(p, s, e), MintedId(e), e.identityId, MintedExpiry(s, e))
  {
    match e
    case DoIssue(_, _, _, _, _, _, _, _) =>
    case DoHalfIssue(_, _, _, _, _, _, _) =>
    case DoStage(_, _, _, _, _, _) =>
    case DoAdopt(_, _, _, _, _, _, _, _) =>
  }

  lemma LiveRowResolves(p: Provider, s: State, events: seq<Event>, last: Event, c: string, i: string, expiry: int, now: int)
    requires LiveRow(s, c, i, expiry) && !EndsDuring(p, s, events, c)
    ensures var t := Run(p, s, events);
      && c in t.credentials
      && Lookup(t, c, now) == (if now < expiry then Some((i, expiry)) else None)
      && (now < expiry ==> (Lookup(Step(p, t, last), c, now) == Some((i, expiry)) <==> !Ends(t, last, c)))
  {
    RunKeepsResolving(p, s, events, c, now);
    StepResolvesIff(p, Run(p, s, events), last, c, now);
  }

  /**
   However it was minted, and whatever happens since, a bearer resolves to its identity exactly until its TTL is over,
   or until the first step that revokes it, discards its identity or aborts its stage.
   */
  lemma FreshBearerResolves(p: Provider, s: State, e: Event, events: seq<Event>, last: Event, now: int)
    requires e.DoIssue? || e.DoHalfIssue? || e.DoAdopt? || (e.DoStage? && e.identityId in s.identities)
    requires Step(p, s, e) != s && !EndsDuring(p, Step(p, s, e), events, MintedId(e))
    ensures var (c, expiry) := (MintedId(e), MintedExpiry(s, e)); var t := Run(p, Step(p, s, e), events);
      && c in t.credentials
      && Lookup(t, c, now) == (if now < expiry then Some((e.identityId, expiry)) else None)
      && (now < expiry ==> (Lookup(Step(p, t, last), c, now) == Some((e.identityId, expiry)) <==> !Ends(t, last, c)))
  {
    MintedRowIsLive(p, s, e);
    LiveRowResolves(p, Step(p, s, e), events, last, MintedId(e), e.identityId, MintedExpiry(s, e), now);
  }

  lemma {:induction false} RunKeepsAdoptionRow(p: Provider, s: State, events: seq<Event>, b: string)
    requires b in s.adoptions
    ensures b in Run(p, s, events).adoptions && Run(p, s, events).adoptions[b] == s.adoptions[b]
    decreases |events|
  {
    if events != [] {
      RunKeepsAdoptionRow(p, Step(p, s, events[0]), events[1..], b);
    }
  }

  /**
   Adopting the same bearer again, after any rotations, revocations and restarts that did not discard its identity,
   changes nothing and returns the credential and adoption row stored the first time, whatever the new arguments.
   */
  lemma ReadoptionReturnsFirst(
    p: Provider, s: State, first: Event, events: seq<Event>, again: Event)
    requires p.Lawful() && Valid(p, s) && first.DoAdopt? && again.DoAdopt? && again.bearer == first.bearer
    requires first.bearer !in s.adoptions && !Wipes(events, first.identityId)
    requires Adopt(p, s, first.bearer, first.identityId, first.issuedAt, first.ttlMs, first.secretKey,
                   first.nextSecretKey, first.iv, first.nextIv).1.Ok?
    ensures var (s1, r1) := Adopt(p, s, first.bearer, first.identityId, first.issuedAt, first.ttlMs, first.secretKey,
                                  first.nextSecretKey, first.iv, first.nextIv);
      var t := Run(p, s1, events);
      Adopt(p, t, again.bearer, again.identityId, again.issuedAt, again.ttlMs, again.secretKey, again.nextSecretKey,
            again.iv, again.nextIv) == (t, Ok(r1.value.(idempotent := true)))
  {
    var b := first.bearer;
    var (s1, r1) := Adopt(p, s, b, first.identityId, first.issuedAt, first.ttlMs, first.secretKey,
                          first.nextSecretKey, first.iv, first.nextIv);
    forall i | i in s1.staged ensures s1.staged[i].credentialId != b { assert StageSound(p, s, i); }
    RunKeepsSettled(p, s1, events, b);
    RunKeepsAdoptionRow(p, s1, events, b);
    var t := Run(p, s1, events);
    assert Identity(t.credentials[b]) == Identity(s1.credentials[b]);
    DecodeInvertsEncode(p.publicOf(first.secretKey));
    assert t.credentials[b].publicKey == s1.credentials[b].publicKey;
    assert t.credentials[b].identityId == s1.credentials[b].identityId;
    assert t.credentials[b].issuedAt == s1.credentials[b].issuedAt;
    assert t.credentials[b].expiresAt == s1.credentials[b].expiresAt;
    assert t.credentials[b].nextCommitment == s1.credentials[b].nextCommitment;
    assert t.credentials[b].credentialClass == s1.credentials[b].credentialClass;
  }

  /** Some step drew exactly this token. */
  predicate Mints(events: seq<Event>, b: string) {
    exists e :: e in events && (e.DoIssue? || e.DoHalfIssue? || e.DoStage?) && MintBearerToken(e.random) == b
  }

  lemma {:induction false} MissingRowStaysMissing(p: Provider, s: State, events: seq<Event>, b: string)
    requires b in s.adoptions && b !in s.credentials && !Mints(events, b)
    ensures b in Run(p, s, events).adoptions && b !in Run(p, s, events).credentials
    decreases |events|
  {
    if events != [] {
      assert events[0] in events;
      assert forall e :: e in events[1..] ==> e in events;
      MissingRowStaysMissing(p, Step(p, s, events[0]), events[1..], b);
    }
  }

  /**
   A discard leaves the adoption row behind, and from then on, in every run that does not draw the same token by
   chance, the bearer cannot be adopted again under any identity.
   */
  lemma DiscardedAdoptionIsStuck(p: Provider, s: State, events: seq<Event>, again: Event)
    requires again.DoAdopt? && IsBearer(again.bearer) && again.bearer in s.adoptions && again.bearer in s.credentials
    requires !Mints(events, again.bearer)
    ensures var t := Run(p, Wipe(s, s.credentials[again.bearer].identityId), events);
      Adopt(p, t, again.bearer, again.identityId, again.issuedAt, again.ttlMs, again.secretKey, again.nextSecretKey,
            again.iv, again.nextIv) == (t, Err(AdoptedRowMissing))
  {
    MissingRowStaysMissing(p, Wipe(s, s.credentials[again.bearer].identityId), events, again.bearer);
  }

  // ---- Where credential rows come from ----

  function CurrentIds(s: State): set<string> {
    set i | i in s.identities :: s.identities[i].currentCredentialId
  }

  function EverCurrent(p: Provider, s: State, events: seq<Event>): set<string>
    decreases |events|
  {
    CurrentIds(s) + if events == [] then {} else EverCurrent(p, Step(p, s, events[0]), events[1..])
  }

  predicate IsStaged(s: State, c: string)
    requires c in s.credentials
  {
    s.credentials[c].identityId in s.staged && s.staged[s.credentials[c].identityId].credentialId == c
  }

  predicate Accounted(s: State, ever: set<string>) {
    forall c :: c in s.credentials ==> c in ever || IsStaged(s, c)
  }

  lemma NewRowIsAccountedFor(p: Provider, s: State, e: Event, c: string)
    requires !e.DoHalfIssue? && c !in s.credentials && c in Step(p, s, e).credentials
    ensures c in CurrentIds(Step(p, s, e)) || IsStaged(Step(p, s, e), c)
  {
    var t := Step(p, s, e);
    if e.DoIssue? || e.DoAdopt? {
      assert e.identityId in t.identities && t.identities[e.identityId].currentCredentialId == c;
    }
  }

  lemma StagedRowStaysAccountedFor(p: Provider, s: State, e: Event, c: string)
    requires Valid(p, s) && !e.DoRestart?
    requires c in s.credentials && IsStaged(s, c) && c in Step(p, s, e).credentials
    ensures c in CurrentIds(Step(p, s, e)) || IsStaged(Step(p, s, e), c)
  {
    var i := s.credentials[c].identityId;
    assert StageSound(p, s, i);
    StepKeepsRow(p, s, e, c);
    StepKeepsStage(p, s, e, i);
    StepKeepsIdentityRow(p, s, e, i);
    assert Identity(Step(p, s, e).credentials[c]).identityId == i;
  }

  lemma StepAccounted(p: Provider, s: State, e: Event, ever: set<string>)
    requires Valid(p, s) && Allowed(s, e) && !e.DoRestart? && !e.DoHalfIssue?
    requires Accounted(s, ever)
    ensures Accounted(Step(p, s, e), ever + CurrentIds(Step(p, s, e)))
  {
    var t := Step(p, s, e);
    forall c | c in t.credentials && c !in ever ensures c in CurrentIds(t) || IsStaged(t, c) {
      if c in s.credentials {
        StagedRowStaysAccountedFor(p, s, e, c);
      } else {
        NewRowIsAccountedFor(p, s, e, c);
      }
    }
  }

  function StagedIds(s: State): set<string> {
    set i | i in s.staged :: s.staged[i].credentialId
  }

  /** A restart leaves every row accounted for exactly when all it forgot had been current before. */
  lemma RestartAccountedIff(p: Provider, s: State, kek: Option<Key>, ever: set<string>)
    requires Valid(p, s) && Accounted(s, ever)
    ensures Accounted(Restart(s, kek), ever) <==> StagedIds(s) <= ever
  {
    forall i | i in s.staged ensures s.staged[i].credentialId in s.credentials { assert StageSound(p, s, i); }
    forall c | c in s.credentials && IsStaged(s, c) ensures c in StagedIds(s) {
      assert s.credentials[c].identityId in s.staged;
    }
  }

  /** A half-done issue leaves every row accounted for exactly when it did nothing or drew a token current before. */
  lemma HalfIssueAccountedIff(p: Provider, s: State, e: Event, ever: set<string>)
    requires Valid(p, s) && e.DoHalfIssue? && Accounted(s, ever)
    ensures Accounted(Step(p, s, e), ever) <==> Step(p, s, e) == s || MintBearerToken(e.random) in ever
  {
    var t, token := Step(p, s, e), MintBearerToken(e.random);
    if t != s {
      assert t.credentials.Keys == s.credentials.Keys + {token} && t.staged == s.staged;
      assert e.identityId !in s.staged;
      assert !IsStaged(t, token);
      forall c | c in s.credentials ensures IsStaged(t, c) <==> IsStaged(s, c) {
        assert t.credentials[c] == s.credentials[c];
      }
    }
  }

  /** The rows a step puts beyond any stage or identity: those a restart forgets, and that of a half-done issue. */
  function Strays(p: Provider, s: State, e: Event): set<string> {
    if e.DoRestart? then StagedIds(s)
    else if e.DoHalfIssue? && Step(p, s, e) != s then {MintBearerToken(e.random)}
    else {}
  }

  function EverStray(p: Provider, s: State, events: seq<Event>): set<string>
    decreases |events|
  {
    if events == [] then {} else Strays(p, s, events[0]) + EverStray(p, Step(p, s, events[0]), events[1..])
  }

  /** Every restart of the run finds nothing staged, and no issue stops halfway. */
  predicate StraysNothing(p: Provider, s: State, events: seq<Event>)
    decreases |events|
  {
    events != [] ==>
      && (events[0].DoRestart? ==> s.staged == map[])
      && (events[0].DoHalfIssue? ==> Step(p, s, events[0]) == s)
      && StraysNothing(p, Step(p, s, events[0]), events[1..])
  }

  lemma {:induction false} StraysNothingIff(p: Provider, s: State, events: seq<Event>)
    ensures StraysNothing(p, s, events) <==> EverStray(p, s, events) == {}
    decreases |events|
  {
    if events != [] {
      StraysNothingIff(p, Step(p, s, events[0]), events[1..]);
      if events[0].DoRestart? && s.staged != map[] {
        var i :| i in s.staged;
        assert s.staged[i].credentialId in Strays(p, s, events[0]);
      } else if events[0].DoHalfIssue? && Step(p, s, events[0]) != s {
        assert MintBearerToken(events[0].random) in Strays(p, s, events[0]);
      }
    }
  }

  /** The exact guard of every step: no row comes to be unaccounted for but those named. */
  lemma StepAccountedIff(p: Provider, s: State, e: Event, ever: set<string>)
    requires Valid(p, s) && Allowed(s, e) && Accounted(s, ever)
    ensures var t := Step(p, s, e);
      Accounted(t, ever + CurrentIds(t)) <==> Strays(p, s, e) <= ever + CurrentIds(t)
  {
    if e.DoRestart? || e.DoHalfIssue? {
      AccountedGrows(s, ever, CurrentIds(Step(p, s, e)));
      StrayStepAccountedIff(p, s, e, ever + CurrentIds(Step(p, s, e)));
    } else {
      StepAccounted(p, s, e, ever);
      NoStrays(p, s, e);
    }
  }

  lemma NoStrays(p: Provider, s: State, e: Event)
    requires !e.DoRestart? && !e.DoHalfIssue?
    ensures Strays(p, s, e) == {}
  {
  }

  lemma StrayStepAccountedIff(p: Provider, s: State, e: Event, ever: set<string>)
    requires Valid(p, s) && (e.DoRestart? || e.DoHalfIssue?) && Accounted(s, ever)
    ensures Accounted(Step(p, s, e), ever) <==> Strays(p, s, e) <= ever
  {
    if e.DoRestart? {
      RestartAccountedIff(p, s, e.kek, ever);
      StraysOfRestart(p, s, e);
    } else {
      HalfIssueAccountedIff(p, s, e, ever);
      StraysOfHalfIssue(p, s, e, ever);
    }
  }

  lemma StraysOfRestart(p: Provider, s: State, e: Event)
    requires e.DoRestart?
    ensures Strays(p, s, e) == StagedIds(s) && Step(p, s, e) == Restart(s, e.kek)
  {
  }

  lemma StraysOfHalfIssue(p: Provider, s: State, e: Event, ever: set<string>)
    requires e.DoHalfIssue?
    ensures Strays(p, s, e) <= ever <==> Step(p, s, e) == s || MintBearerToken(e.random) in ever
  {
  }

  lemma AccountedGrows(s: State, ever: set<string>, more: set<string>)
    requires Accounted(s, ever)
    ensures Accounted(s, ever + more)
  {
  }

  lemma StepAccountsFor(p: Provider, s: State, e: Event, ever: set<string>)
    requires Valid(p, s) && Allowed(s, e) && Accounted(s, ever)
    ensures var t := Step(p, s, e); Accounted(t, ever + CurrentIds(t) + Strays(p, s, e))
  {
    var more, t := ever + Strays(p, s, e), Step(p, s, e);
    StepAccountedIff(p, s, e, more);
    assert more + CurrentIds(t) == ever + CurrentIds(t) + Strays(p, s, e);
  }

  /**
   In every run each credential row, and so every bearer `lookupByBearer` resolves, was current at some point, is the
   one staged right now, was staged when a restart came, or is left over from an issue that stopped halfway. Without
   such restarts and issues only the first two kinds remain.
   */
  lemma {:induction false} RowsAreAccountedFor(p: Provider, s: State, events: seq<Event>, ever: set<string>)
    requires p.Lawful() && Valid(p, s) && AllowedRun(p, s, events)
    requires Accounted(s, ever)
    ensures Accounted(Run(p, s, events), ever + EverCurrent(p, s, events) + EverStray(p, s, events))
    ensures StraysNothing(p, s, events) ==> Accounted(Run(p, s, events), ever + EverCurrent(p, s, events))
    decreases |events|
  {
    if events != [] {
      var e, t := events[0], Step(p, s, events[0]);
      var more := ever + CurrentIds(t) + Strays(p, s, e);
      StepKeepsValid(p, s, e);
      StepAccountsFor(p, s, e, ever);
      RowsAreAccountedFor(p, t, events[1..], more);
      assert CurrentIds(t) <= EverCurrent(p, t, events[1..]);
      assert more + EverCurrent(p, t, events[1..]) + EverStray(p, t, events[1..])
          <= ever + EverCurrent(p, s, events) + EverStray(p, s, events);
    }
    StraysNothingIff(p, s, events);
  }

  /** What a half-done issue leaves: a live row that is nobody's current one and no stage's, so no abort removes it. */
  lemma HalfIssueAddsRow(p: Provider, s: State, half: Event)
    requires Valid(p, s) && half.DoHalfIssue?
    requires half.identityId !in s.identities && MintBearerToken(half.random) !in s.credentials
    ensures var stray, expiry := MintBearerToken(half.random), half.issuedAt + half.ttlMs; var t := Step(p, s, half);
      && t.identities == s.identities && stray !in CurrentIds(t) && stray !in StagedIds(t)
      && LiveRow(t, stray, half.identityId, expiry) && Abort(t, half.identityId) == t
  {
    var stray := MintBearerToken(half.random);
    assert half.identityId !in s.staged;
    forall i | i in s.identities ensures s.identities[i].currentCredentialId != stray { assert Committed(p, s, i); }
    forall i | i in s.staged ensures s.staged[i].credentialId != stray { assert StageSound(p, s, i); }
  }

  lemma IssueKeepsStray(p: Provider, s: State, retry: Event, stray: string, i: string, expiry: int)
    requires retry.DoIssue? && stray !in CurrentIds(s) && LiveRow(s, stray, i, expiry)
    requires stray != MintBearerToken(retry.random)
    ensures var t := Step(p, s, retry);
      t.staged == s.staged && stray !in CurrentIds(t) && LiveRow(t, stray, i, expiry)
  {
    var t := Step(p, s, retry);
    forall j | j in t.identities ensures t.identities[j].currentCredentialId != stray {
      if j in s.identities { assert s.identities[j].currentCredentialId in CurrentIds(s); }
    }
  }

  lemma LiveRowLookup(s: State, c: string, i: string, expiry: int, now: int)
    requires LiveRow(s, c, i, expiry)
    ensures Lookup(s, c, now) == if now < expiry then Some((i, expiry)) else None
  {
  }

  lemma StrayOutlivesRestart(
    p: Provider, s: State, kek: Option<Key>, retry: Event, stray: string, i: string, expiry: int, now: int)
    requires retry.DoIssue? && stray !in CurrentIds(s) && LiveRow(s, stray, i, expiry)
    requires stray != MintBearerToken(retry.random)
    ensures var t := Step(p, Restart(s, kek), retry);
      && stray in t.credentials && stray !in CurrentIds(t) && t.staged == map[]
      && Lookup(t, stray, now) == if now < expiry then Some((i, expiry)) else None
  {
    var restarted := Restart(s, kek);
    assert CurrentIds(restarted) == CurrentIds(s);
    IssueKeepsStray(p, restarted, retry, stray, i, expiry);
    LiveRowLookup(Step(p, restarted, retry), stray, i, expiry, now);
  }

  /**
   An issue that stops halfway, whether its second INSERT was refused or the process died, does leave such a row: a
   live bearer that resolves until its expiry, that no abort or restart removes and a retried issue does not replace.
   */
  lemma HalfIssueLeavesStrayBearer(p: Provider, s: State, half: Event, retry: Event, now: int)
    requires Valid(p, s) && half.DoHalfIssue? && retry.DoIssue? && retry.identityId == half.identityId
    requires half.identityId !in s.identities && MintBearerToken(half.random) !in s.credentials
    requires MintBearerToken(retry.random) != MintBearerToken(half.random)
    ensures var stray, expiry := MintBearerToken(half.random), half.issuedAt + half.ttlMs;
      var t := Step(p, Restart(Abort(Step(p, s, half), half.identityId), s.kek), retry);
      && stray in t.credentials && stray !in CurrentIds(t) && t.staged == map[]
      && Lookup(t, stray, now) == if now < expiry then Some((half.identityId, expiry)) else None
  {
    HalfIssueAddsRow(p, s, half);
    StrayOutlivesRestart(p, Step(p, s, half), s.kek, retry, MintBearerToken(half.random), half.identityId,
                         half.issuedAt + half.ttlMs, now);
  }

  /** From an empty database one issue and one stage lead to a pending stage, where the failures below begin. */
  lemma StageIsReachable(p: Provider, kek: Option<Key>, issue: Event, stage: Event)
    requires p.Lawful() && issue.DoIssue? && stage.DoStage? && stage.identityId == issue.identityId
    requires stage.oldCredentialId == MintBearerToken(issue.random) != MintBearerToken(stage.random)
    ensures AllowedRun(p, Empty(kek), [issue, stage])
    ensures var s := Run(p, Empty(kek), [issue, stage]); Valid(p, s) && issue.identityId in s.staged
  {
    var s1 := Step(p, Empty(kek), issue);
    assert [issue, stage][1..] == [stage];
    assert Run(p, s1, [stage]) == Step(p, s1, stage) && AllowedRun(p, s1, [stage]);
    ReachableIsValid(p, kek, [issue, stage]);
    EmptyIsValid(p, kek);
    StepKeepsValid(p, Empty(kek), issue);
    StageSucceedsIff(p, s1, stage.identityId, stage.oldCredentialId, stage.issuedAt, stage.random, stage.nextNextSecret,
                     stage.iv);
  }

  /**
   A crash between stage and commit does leave such a row: the staged row survives the restart as a live bearer that
   was never current, and abort no longer removes it.
   */
  lemma RestartOrphansStagedRow(p: Provider, s: State, identityId: string, now: int)
    requires Valid(p, s) && identityId in s.staged
    ensures var orphan := s.staged[identityId].credentialId; var t := Abort(Restart(s, s.kek), identityId);
      && orphan in t.credentials && orphan !in CurrentIds(t) && identityId !in t.staged
      && Lookup(t, orphan, now) == Lookup(s, orphan, now)
      && (!s.credentials[orphan].revoked && now < s.credentials[orphan].expiresAt ==>
            Lookup(t, orphan, now) == Some((identityId, s.credentials[orphan].expiresAt)))
  {
    assert StageSound(p, s, identityId);
    var orphan := s.staged[identityId].credentialId;
    forall i | i in s.identities ensures s.identities[i].currentCredentialId != orphan {
      assert Committed(p, s, i);
    }
  }
}
