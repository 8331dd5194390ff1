/**
 What callers get from the rotation backend over whole runs: which keys sign and verify under a bearer, how long it
 lives, which secret each rotation promotes, and what the answered credential says.
 */
module RotationOutcomes {
  import opened Wrappers
  import opened Base64
  import opened Vault
  import opened Rotation
  import opened RotationProofs
  import opened RotationHistory

  // ---- Bearer tokens ----

  lemma HexDigitIsInjective(m: int, n: int)
    requires 0 <= m < 16 && 0 <= n < 16 && HexDigit(m) == HexDigit(n)
    ensures m == n
  {
  }

  lemma {:induction false} HexIsInjective(a: Bytes, b: Bytes)
    requires Hex(a) == Hex(b)
    ensures a == b
  {
    HexShape(a);
    HexShape(b);
    if a != [] {
      assert Hex(a)[..2] == [HexDigit(a[0] / 16), HexDigit(a[0] % 16)] && Hex(a)[2..] == Hex(a[1..]);
      assert Hex(b)[..2] == [HexDigit(b[0] / 16), HexDigit(b[0] % 16)] && Hex(b)[2..] == Hex(b[1..]);
      assert Hex(a)[0] == Hex(a)[..2][0] && Hex(a)[1] == Hex(a)[..2][1];
      HexDigitIsInjective(a[0] / 16, b[0] / 16);
      HexDigitIsInjective(a[0] % 16, b[0] % 16);
      HexIsInjective(a[1..], b[1..]);
      assert a == [a[0]] + a[1..] && b == [b[0]] + b[1..];
    }
  }

  /** Different draws give different tokens. */
  lemma MintIsInjective(a: TokenBytes, b: TokenBytes)
    ensures MintBearerToken(a) == MintBearerToken(b) <==> a == b
  {
    assert MintBearerToken(a)[3..] == Hex(a) && MintBearerToken(b)[3..] == Hex(b);
    if MintBearerToken(a) == MintBearerToken(b) {
      HexIsInjective(a, b);
    }
  }

  function HexValue(c: char): (v: int)
    requires IsHex([c])
    ensures 0 <= v < 16 && HexDigit(v) == c
  {
    assert c in [c];
    if c <= '9' then c as int - '0' as int else c as int - 'a' as int + 10
  }

  lemma {:induction false} HexCovers(s: string) returns (b: Bytes)
    requires |s| % 2 == 0 && IsHex(s)
    ensures Hex(b) == s && |b| == |s| / 2
  {
    if s == "" {
      b := [];
    } else {
      assert s[0] in s && s[1] in s && forall c :: c in s[2..] ==> c in s;
      var rest := HexCovers(s[2..]);
      var byte: Byte := HexValue(s[0]) * 16 + HexValue(s[1]);
      b := [byte] + rest;
      assert b[1..] == rest && byte / 16 == HexValue(s[0]) && byte % 16 == HexValue(s[1]);
      assert s == [s[0], s[1]] + s[2..];
    }
  }

  /** The bearers adoption accepts are exactly the tokens a mint can draw: "cn-" and 48 of the digits 0-9a-f. */
  lemma BearersAreTheTokens(s: string)
    ensures IsBearer(s) <==> exists random: TokenBytes :: MintBearerToken(random) == s
    ensures IsBearer(s) <==> |s| == 51 && s[..3] == "cn-" && forall k :: 3 <= k < 51 ==> s[k] in "0123456789abcdef"
  {
    if random: TokenBytes :| MintBearerToken(random) == s {
      MintedTokenIsBearer(random);
    }
    if IsBearer(s) {
      var random := HexCovers(s[3..]);
      assert MintBearerToken(random) == s;
      forall k | 3 <= k < 51 ensures s[k] in "0123456789abcdef" {
        assert s[k] in s[3..];
        HexDigitIsListed(HexValue(s[k]));
      }
    }
    if |s| == 51 && s[..3] == "cn-" && forall k :: 3 <= k < 51 ==> s[k] in "0123456789abcdef" {
      forall c | c in s[3..] ensures '0' <= c <= '9' || 'a' <= c <= 'f' {
        var k :| 0 <= k < 48 && s[3..][k] == c;
        assert s[k + 3] == c;
      }
    }
  }

  lemma HexDigitIsListed(n: int)
    requires 0 <= n < 16
    ensures HexDigit(n) == "0123456789abcdef"[n]
  {
  }

  // ---- What the answer says ----

  /** The credential answered for an issue is the one asked for, and commits to the next key that was generated. */
  lemma IssueAnswersWhatWasAsked(
    p: Provider, s: State, i: string, issuedAt: int, ttlMs: int, random: TokenBytes, secret: Bytes, nextSecret: Bytes,
    iv: Iv, nextIv: Iv)
    ensures var (t, result) := Issue(p, s, i, issuedAt, ttlMs, random, secret, nextSecret, iv, nextIv);
      && (result.Ok? <==> i !in s.identities && MintBearerToken(random) !in s.credentials)
      && (i in s.identities ==> (t, result) == (s, Err(AlreadyInceptioned)))
      && (result.Err? ==> t == s)
      && (result.Ok? ==> AnswerMatches(p, t, result.value, MintBearerToken(random), i, p.publicOf(secret),
                                       p.publicOf(nextSecret), issuedAt, issuedAt + ttlMs))
  {
    DecodeInvertsEncode(p.publicOf(secret));
  }

  /** The same for a stage, whose key is the identity's stored next one and whose life is the identity's TTL. */
  lemma StageAnswersWhatWasAsked(
    p: Provider, s: State, i: string, oldId: string, issuedAt: int, random: TokenBytes, secret: Bytes, iv: Iv)
    ensures var (t, result) := Stage(p, s, i, oldId, issuedAt, random, secret, iv);
      && (result.Err? ==> t == s)
      && (result.Ok? ==>
            && i in s.identities
            && AnswerMatches(p, t, result.value, MintBearerToken(random), i, Decode(s.identities[i].nextPublicKey),
                             p.publicOf(secret), issuedAt, issuedAt + s.identities[i].ttlMs))
  {
    if i in s.identities {
      DecodeInvertsEncode(Decode(s.identities[i].nextPublicKey));
    }
  }

  lemma AdoptAnswersWhatWasAsked(
    p: Provider, s: State, b: string, i: string, issuedAt: int, ttlMs: int, secret: Bytes, nextSecret: Bytes, iv: Iv,
    nextIv: Iv)
    requires b !in s.adoptions
    ensures var (t, result) := Adopt(p, s, b, i, issuedAt, ttlMs, secret, nextSecret, iv, nextIv);
      result.Ok? ==>
        && result.value.bearer == b && result.value.row == AdoptionRow(i, issuedAt) && !result.value.idempotent
        && AnswerMatches(p, t, result.value.credential, b, i, p.publicOf(secret), p.publicOf(nextSecret), issuedAt,
                         issuedAt + ttlMs)
  {
    DecodeInvertsEncode(p.publicOf(secret));
  }

  /** The answer and the stored row agree with each other and with what was asked. */
  predicate AnswerMatches(
    p: Provider, t: State, answer: Credential, id: string, i: string, publicKey: Bytes, nextPublicKey: Bytes,
    issuedAt: int, expiresAt: int)
  {
    && answer.credentialId == id && answer.identityId == i && answer.publicKey == publicKey
    && answer.backendId == p.backendId && answer.algorithmSuite == "ed25519"
    && answer.credentialClass == p.credentialClass
    && answer.issuedAt == issuedAt && answer.expiresAt == expiresAt
    && answer.nextCommitment == p.commitment(p.backendId, "ed25519", nextPublicKey)
    && id in t.credentials
    && var row := t.credentials[id];
       && row.identityId == i && Decode(row.publicKey) == publicKey && row.algorithmSuite == "ed25519"
       && row.credentialClass == p.credentialClass && row.issuedAt == issuedAt && row.expiresAt == expiresAt
       && row.nextCommitment == answer.nextCommitment && !row.revoked
  }

  /** A refusal says something true of the tables: which guard of which operation it names. */
  predicate Justified(p: Provider, s: State, e: Event, error: Rotation.Error)
    requires e.DoIssue? || e.DoStage? || e.DoAdopt?
  {
    match error
    case AlreadyInceptioned => e.DoIssue? && e.identityId in s.identities
    case StagedRotationConflict => e.DoStage? && e.identityId in s.staged
    case UnknownIdentity => e.DoStage? && e.identityId !in s.identities
    case OldCredentialMismatch =>
      e.DoStage? && e.identityId in s.identities && s.identities[e.identityId].currentCredentialId != e.oldCredentialId
    case VaultFailure(_) => e.DoStage? && e.identityId in s.identities && NextSecret(p, s, e.identityId).Err?
    case DuplicateRow => if e.DoAdopt? then e.identityId in s.identities else MintBearerToken(e.random) in s.credentials
    case BadBearer => e.DoAdopt? && !IsBearer(e.bearer)
    case AdoptedRowMissing => e.DoAdopt? && e.bearer in s.adoptions && e.bearer !in s.credentials
    case BearerCollision => e.DoAdopt? && e.bearer !in s.adoptions && e.bearer in s.credentials
    case _ => false
  }

  lemma RefusalsAreJustified(p: Provider, s: State, e: Event)
    ensures e.DoIssue? ==>
      var result := Issue(p, s, e.identityId, e.issuedAt, e.ttlMs, e.random, e.secretKey, e.nextSecretKey, e.iv, e.nextIv).1;
      result.Err? ==> Justified(p, s, e, result.error)
    ensures e.DoStage? ==>
      var result := Stage(p, s, e.identityId, e.oldCredentialId, e.issuedAt, e.random, e.nextNextSecret, e.iv).1;
      result.Err? ==> Justified(p, s, e, result.error)
    ensures e.DoAdopt? ==>
      var result :=
        Adopt(p, s, e.bearer, e.identityId, e.issuedAt, e.ttlMs, e.secretKey, e.nextSecretKey, e.iv, e.nextIv).1;
      result.Err? ==> Justified(p, s, e, result.error)
  {
  }

  /** Signing is refused for a missing row, for a revoked one, or because the vault cannot open the row's secret. */
  lemma SignRefusalsAreJustified(p: Provider, s: State, c: string, message: Bytes)
    ensures Sign(p, s, c, message) == Err(UnknownCredential) <==> c !in s.credentials
    ensures Sign(p, s, c, message) == Err(CredentialRevoked) <==> c in s.credentials && s.credentials[c].revoked
  {
  }

  function NextSecret(p: Provider, s: State, i: string): Result<Bytes, Vault.Error>
    requires i in s.identities
  {
    DecryptSecret(p.aead, s.kek, s.identities[i].nextSecretKey, NextSecretAad(i))
  }

  // ---- Which key verifies under a bearer ----

  lemma StepKeepsWholeRow(p: Provider, s: State, e: Event, c: string)
    requires c in s.credentials && !Ends(s, e, c)
    ensures c in Step(p, s, e).credentials && Step(p, s, e).credentials[c] == s.credentials[c]
  {
  }

  /** A row that no revocation, discard or abort of it ends stays as it was minted, to the last column. */
  lemma {:induction false} RunKeepsWholeRow(p: Provider, s: State, events: seq<Event>, c: string)
    requires c in s.credentials && !EndsDuring(p, s, events, c)
    ensures c in Run(p, s, events).credentials && Run(p, s, events).credentials[c] == s.credentials[c]
    decreases |events|
  {
    if events != [] {
      StepKeepsWholeRow(p, s, events[0], c);
      RunKeepsWholeRow(p, Step(p, s, events[0]), events[1..], c);
    }
  }

  /** The secret a mint puts behind its token: the one given, or for a stage the one in the identity's next slot. */
  function MintedSecret(p: Provider, s: State, e: Event): Bytes
    requires IsMint(s, e)
  {
    if e.DoStage? then
      var promoted := DecryptSecret(p.aead, s.kek, s.identities[e.identityId].nextSecretKey, NextSecretAad(e.identityId));
      if promoted.Ok? then promoted.value else []
    else e.secretKey
  }

  predicate IsMint(s: State, e: Event) {
    e.DoIssue? || e.DoHalfIssue? || e.DoAdopt? || (e.DoStage? && e.identityId in s.identities)
  }

  predicate HoldsSecret(p: Provider, s: State, c: string, secret: Bytes) {
    && c in s.credentials && !s.credentials[c].revoked
    && Decode(s.credentials[c].publicKey) == p.publicOf(secret)
    && DecryptSecret(p.aead, s.kek, s.credentials[c].secretKey, c) == Ok(secret)
  }

  lemma MintedRowHoldsSecret(p: Provider, s: State, e: Event)
    requires p.Lawful() && Valid(p, s) && IsMint(s, e) && Step(p, s, e) != s
    ensures HoldsSecret(p, Step(p, s, e), MintedId(e), MintedSecret(p, s, e))
  {
    match e
    case DoIssue(i, issuedAt, ttlMs, random, secret, next, iv, _) =>
      NewRowOpens(p, s.kek, MintBearerToken(random), i, secret, p.publicOf(secret), p.publicOf(next), issuedAt, ttlMs, iv);
    case DoHalfIssue(i, issuedAt, ttlMs, random, secret, next, iv) =>
      NewRowOpens(p, s.kek, MintBearerToken(random), i, secret, p.publicOf(secret), p.publicOf(next), issuedAt, ttlMs, iv);
    case DoAdopt(b, i, issuedAt, ttlMs, secret, next, iv, _) =>
      NewRowOpens(p, s.kek, b, i, secret, p.publicOf(secret), p.publicOf(next), issuedAt, ttlMs, iv);
    case DoStage(i, _, issuedAt, random, next, iv) =>
      assert NextOpens(p, s.kek, i, s.identities[i]);
      NewRowOpens(p, s.kek, MintBearerToken(random), i, MintedSecret(p, s, e), Decode(s.identities[i].nextPublicKey),
                  p.publicOf(next), issuedAt, s.identities[i].ttlMs, iv);
  }

  lemma HeldSecretVerifies(p: Provider, s: State, c: string, secret: Bytes, message: Bytes, signature: Bytes)
    requires HoldsSecret(p, s, c, secret)
    ensures Verify(p, s, c, message, signature) <==> p.verify(message, signature, p.publicOf(secret))
    ensures Sign(p, s, c, message) == Ok(p.sign(message, secret))
  {
  }

  lemma EndedRowIsDead(p: Provider, s: State, e: Event, c: string, message: Bytes, signature: Bytes)
    requires c in s.credentials && Ends(s, e, c)
    ensures var t := Step(p, s, e); !Verify(p, t, c, message, signature) && Sign(p, t, c, message).Err?
  {
    StepKeepsRow(p, s, e, c);
  }

  /**
   However a bearer was minted and whatever ran since, short of a step that ends it, what verifies under it is exactly
   what verifies under the public key of its minted secret, and it signs with that secret. The step that ends it ends
   both.
   */
  lemma MintedSecretDecides(
    p: Provider, s: State, e: Event, events: seq<Event>, last: Event, message: Bytes, signature: Bytes)
    requires p.Lawful() && Valid(p, s) && IsMint(s, e) && Step(p, s, e) != s
    requires AllowedRun(p, Step(p, s, e), events) && !EndsDuring(p, Step(p, s, e), events, MintedId(e))
    ensures var c, secret, t := MintedId(e), MintedSecret(p, s, e), Run(p, Step(p, s, e), events);
      && c in t.credentials
      && (Verify(p, t, c, message, signature) <==> p.verify(message, signature, p.publicOf(secret)))
      && Sign(p, t, c, message) == Ok(p.sign(message, secret))
      && (Ends(t, last, c) ==>
            !Verify(p, Step(p, t, last), c, message, signature) && Sign(p, Step(p, t, last), c, message).Err?)
  {
    var c, secret := MintedId(e), MintedSecret(p, s, e);
    MintedRowHoldsSecret(p, s, e);
    HeldSecretDecides(p, Step(p, s, e), events, last, c, secret, message, signature);
  }

  lemma HeldSecretDecides(
    p: Provider, s: State, events: seq<Event>, last: Event, c: string, secret: Bytes, message: Bytes, signature: Bytes)
    requires HoldsSecret(p, s, c, secret) && AllowedRun(p, s, events) && !EndsDuring(p, s, events, c)
    ensures var t := Run(p, s, events);
      && c in t.credentials
      && (Verify(p, t, c, message, signature) <==> p.verify(message, signature, p.publicOf(secret)))
      && Sign(p, t, c, message) == Ok(p.sign(message, secret))
      && (Ends(t, last, c) ==>
            !Verify(p, Step(p, t, last), c, message, signature) && Sign(p, Step(p, t, last), c, message).Err?)
  {
    RunKeepsWholeRow(p, s, events, c);
    RunKeepsReads(p, s, events, s.credentials[c].secretKey, c);
    HeldSecretVerifies(p, Run(p, s, events), c, secret, message, signature);
    if Ends(Run(p, s, events), last, c) {
      EndedRowIsDead(p, Run(p, s, events), last, c, message, signature);
    }
  }

  // ---- How long rotated bearers live ----

  /** Short of a discard nothing changes an identity's TTL, commits included. */
  lemma {:induction false} RunKeepsTtl(p: Provider, s: State, events: seq<Event>, i: string)
    requires i in s.identities && !Wipes(events, i)
    ensures i in Run(p, s, events).identities && Run(p, s, events).identities[i].ttlMs == s.identities[i].ttlMs
    decreases |events|
  {
    if events != [] {
      assert events[0] in events;
      assert forall e :: e in events[1..] ==> e in events;
      StepKeepsTtl(p, s, events[0], i);
      RunKeepsTtl(p, Step(p, s, events[0]), events[1..], i);
    }
  }

  lemma StepKeepsTtl(p: Provider, s: State, e: Event, i: string)
    requires i in s.identities && !(e.DoWipe? && e.identityId == i)
    ensures i in Step(p, s, e).identities && Step(p, s, e).identities[i].ttlMs == s.identities[i].ttlMs
  {
  }

  lemma InceptionSetsTtl(p: Provider, s: State, e: Event)
    requires (e.DoIssue? || e.DoAdopt?) && Step(p, s, e) != s
    ensures e.identityId in Step(p, s, e).identities && Step(p, s, e).identities[e.identityId].ttlMs == e.ttlMs
  {
  }

  /** If this stage mints a bearer and no later step ends it, the bearer resolves for exactly the TTL. */
  predicate LivesFor(p: Provider, s: State, i: string, ttlMs: int, stage: Event, later: seq<Event>, now: int) {
    stage.DoStage? && stage.identityId == i && Step(p, s, stage) != s
    && !EndsDuring(p, Step(p, s, stage), later, MintBearerToken(stage.random)) ==>
      Lookup(Run(p, Step(p, s, stage), later), MintBearerToken(stage.random), now)
      == if now < stage.issuedAt + ttlMs then Some((i, stage.issuedAt + ttlMs)) else None
  }

  ghost predicate StagedBearersLive(p: Provider, s: State, i: string, ttlMs: int) {
    forall stage: Event, later: seq<Event>, now: int :: LivesFor(p, s, i, ttlMs, stage, later, now)
  }

  lemma LiveRowLives(p: Provider, s: State, later: seq<Event>, c: string, i: string, expiry: int, now: int)
    requires LiveRow(s, c, i, expiry) && !EndsDuring(p, s, later, c)
    ensures Lookup(Run(p, s, later), c, now) == if now < expiry then Some((i, expiry)) else None
  {
    RunKeepsResolving(p, s, later, c, now);
    LiveRowLookup(s, c, i, expiry, now);
  }

  lemma StagedBearerLives(p: Provider, s: State, i: string, stage: Event, later: seq<Event>, now: int)
    requires i in s.identities
    ensures LivesFor(p, s, i, s.identities[i].ttlMs, stage, later, now)
  {
    if stage.DoStage? && stage.identityId == i && Step(p, s, stage) != s
       && !EndsDuring(p, Step(p, s, stage), later, MintBearerToken(stage.random)) {
      MintedRowIsLive(p, s, stage);
      LiveRowLives(p, Step(p, s, stage), later, MintBearerToken(stage.random), i, MintedExpiry(s, stage), now);
    }
  }

  lemma TtlDecides(p: Provider, s: State, i: string)
    requires i in s.identities
    ensures StagedBearersLive(p, s, i, s.identities[i].ttlMs)
  {
    forall stage: Event, later: seq<Event>, now: int ensures LivesFor(p, s, i, s.identities[i].ttlMs, stage, later, now) {
      StagedBearerLives(p, s, i, stage, later, now);
    }
  }

  lemma RunKeepsInceptionTtl(p: Provider, s: State, e: Event, events: seq<Event>)
    requires (e.DoIssue? || e.DoAdopt?) && Step(p, s, e) != s && !Wipes(events, e.identityId)
    ensures var t := Run(p, Step(p, s, e), events);
      e.identityId in t.identities && t.identities[e.identityId].ttlMs == e.ttlMs
  {
    InceptionSetsTtl(p, s, e);
    RunKeepsTtl(p, Step(p, s, e), events, e.identityId);
  }

  /**
   After an inception with some TTL and any number of rotations, revocations and restarts, a bearer staged at a time
   resolves exactly until that time plus the inception's TTL, for as long as no step ends it.
   */
  lemma StagedBearersKeepInceptionTtl(p: Provider, s: State, e: Event, events: seq<Event>)
    requires (e.DoIssue? || e.DoAdopt?) && Step(p, s, e) != s && !Wipes(events, e.identityId)
    ensures StagedBearersLive(p, Run(p, Step(p, s, e), events), e.identityId, e.ttlMs)
  {
    RunKeepsInceptionTtl(p, s, e, events);
    TtlDecides(p, Run(p, Step(p, s, e), events), e.identityId);
  }

  // ---- Which secret a rotation promotes ----

  lemma InceptionStoresNextSecret(p: Provider, s: State, e: Event)
    requires p.Lawful() && (e.DoIssue? || e.DoAdopt?) && Step(p, s, e) != s
    ensures var t := Step(p, s, e); e.identityId in t.identities && NextSecret(p, t, e.identityId) == Ok(e.nextSecretKey)
  {
    RoundTrip(p.aead, s.kek, s.kek, e.nextIv, e.nextSecretKey, NextSecretAad(e.identityId));
  }

  /** The events that end a stage other than by its commit, or the commit itself. */
  predicate MovesStage(e: Event, i: string) {
    e.DoRestart? || ((e.DoCommit? || e.DoAbort? || e.DoWipe?) && e.identityId == i)
  }

  lemma {:induction false} RunKeepsStage(p: Provider, s: State, events: seq<Event>, i: string)
    requires i in s.staged && i in s.identities && forall e :: e in events ==> !MovesStage(e, i)
    ensures var t := Run(p, s, events);
      i in t.staged && t.staged[i] == s.staged[i] && i in t.identities && t.kek == s.kek
    decreases |events|
  {
    if events != [] {
      assert events[0] in events;
      assert forall e :: e in events[1..] ==> e in events;
      StepKeepsStage(p, s, events[0], i);
      StepKeepsIdentityRow(p, s, events[0], i);
      RunKeepsStage(p, Step(p, s, events[0]), events[1..], i);
    }
  }

  lemma StageHoldsNextNext(p: Provider, s: State, e: Event)
    requires e.DoStage? && Step(p, s, e) != s
    ensures var t := Step(p, s, e);
      && e.identityId in t.staged && e.identityId in t.identities
      && t.staged[e.identityId] == Staged(MintBearerToken(e.random), e.nextNextSecret, p.publicOf(e.nextNextSecret))
  {
  }

  lemma CommitStoresStagedSecret(p: Provider, s: State, e: Event)
    requires p.Lawful() && e.DoCommit? && e.identityId in s.staged && e.identityId in s.identities
    ensures var t := Step(p, s, e);
      && e.identityId in t.identities && NextSecret(p, t, e.identityId) == Ok(s.staged[e.identityId].nextNextSecret)
      && t.identities[e.identityId].currentCredentialId == s.staged[e.identityId].credentialId
  {
    RoundTrip(p.aead, s.kek, s.kek, e.iv, s.staged[e.identityId].nextNextSecret, NextSecretAad(e.identityId));
  }

  /** A commit, whatever happened to others since its stage, stores the secret that stage generated as the next one. */
  lemma CommitInstallsStagedSecret(p: Provider, s: State, stage: Event, events: seq<Event>, commit: Event)
    requires p.Lawful() && stage.DoStage? && Step(p, s, stage) != s
    requires commit.DoCommit? && commit.identityId == stage.identityId
    requires forall e :: e in events ==> !MovesStage(e, stage.identityId)
    ensures var t := Step(p, Run(p, Step(p, s, stage), events), commit);
      && stage.identityId in t.identities && NextSecret(p, t, stage.identityId) == Ok(stage.nextNextSecret)
      && t.identities[stage.identityId].currentCredentialId == MintBearerToken(stage.random)
  {
    StageHoldsNextNext(p, s, stage);
    RunKeepsStage(p, Step(p, s, stage), events, stage.identityId);
    CommitStoresStagedSecret(p, Run(p, Step(p, s, stage), events), commit);
  }

  /** A stage is used up by its commit, its abort or a restart: committing it again is refused and changes nothing. */
  lemma StageIsUsedUp(p: Provider, s: State, e: Event, i: string, iv: Iv)
    requires e.DoRestart? || ((e.DoCommit? || e.DoAbort?) && e.identityId == i)
    ensures var t := Step(p, s, e);
      Commit(p, t, i, iv) == (t, Err(NoStagedRotation)) && Abort(t, i) == t
    ensures e.DoCommit? ==> (Commit(p, s, i, e.iv).1.Ok? <==> i in s.staged)
  {
  }

  lemma NextSecretKept(p: Provider, s: State, events: seq<Event>, i: string)
    requires AllowedRun(p, s, events) && i in s.identities && !TouchesIdentity(events, i) && NextSecret(p, s, i).Ok?
    ensures i in Run(p, s, events).identities && NextSecret(p, Run(p, s, events), i) == NextSecret(p, s, i)
  {
    RunKeepsIdentityRow(p, s, events, i);
    RunKeepsReads(p, s, events, s.identities[i].nextSecretKey, NextSecretAad(i));
  }

  /** The first rotation promotes the next secret the inception generated, however often it had to be retried. */
  lemma FirstRotationPromotes(p: Provider, s: State, e: Event, events: seq<Event>, stage: Event)
    requires p.Lawful() && (e.DoIssue? || e.DoAdopt?) && Step(p, s, e) != s
    requires stage.DoStage? && stage.identityId == e.identityId
    requires AllowedRun(p, Step(p, s, e), events) && !TouchesIdentity(events, e.identityId)
    ensures var t := Run(p, Step(p, s, e), events); IsMint(t, stage) && MintedSecret(p, t, stage) == e.nextSecretKey
  {
    InceptionStoresNextSecret(p, s, e);
    NextSecretKept(p, Step(p, s, e), events, e.identityId);
  }

  /** Every later rotation promotes the secret that the stage committed last had generated. */
  lemma LaterRotationPromotes(
    p: Provider, s: State, stage: Event, between: seq<Event>, commit: Event, events: seq<Event>, again: Event)
    requires p.Lawful() && stage.DoStage? && Step(p, s, stage) != s
    requires commit.DoCommit? && commit.identityId == stage.identityId
    requires forall e :: e in between ==> !MovesStage(e, stage.identityId)
    requires again.DoStage? && again.identityId == stage.identityId
    requires AllowedRun(p, Step(p, Run(p, Step(p, s, stage), between), commit), events)
    requires !TouchesIdentity(events, stage.identityId)
    ensures var t := Run(p, Step(p, Run(p, Step(p, s, stage), between), commit), events);
      IsMint(t, again) && MintedSecret(p, t, again) == stage.nextNextSecret
  {
    CommitInstallsStagedSecret(p, s, stage, between, commit);
    NextSecretKept(p, Step(p, Run(p, Step(p, s, stage), between), commit), events, stage.identityId);
  }
}
