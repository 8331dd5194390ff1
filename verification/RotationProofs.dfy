/** What every run of the rotation backend keeps. */
module RotationProofs {
  import opened Wrappers
  import opened Base64
  import opened Vault
  import opened Rotation

  // ---- The invariant ----

  /** The stored value opens under this context to the secret key of `publicKey`. */
  predicate Opens(p: Provider, kek: Option<Key>, stored: string, aad: string, publicKey: Bytes) {
    match DecryptSecret(p.aead, kek, stored, aad)
    case Ok(secret) => p.publicOf(secret) == publicKey
    case Err(_) => false
  }

  predicate RowOpens(p: Provider, kek: Option<Key>, credentialId: string, row: CredentialRow) {
    row.revoked || Opens(p, kek, row.secretKey, credentialId, Decode(row.publicKey))
  }

  predicate NextOpens(p: Provider, kek: Option<Key>, identityId: string, ident: IdentityRow) {
    Opens(p, kek, ident.nextSecretKey, NextSecretAad(identityId), Decode(ident.nextPublicKey))
  }

  /** The current credential exists, belongs to the identity, and commits to the identity's stored next key. */
  predicate Committed(p: Provider, s: State, identityId: string)
    requires identityId in s.identities
  {
    var ident := s.identities[identityId];
    && ident.currentCredentialId in s.credentials
    && s.credentials[ident.currentCredentialId].identityId == identityId
    && s.credentials[ident.currentCredentialId].nextCommitment == p.Commit(Decode(ident.nextPublicKey))
  }

  /** A stage promotes the committed next key, commits to the pair it holds in memory, and is not yet current. */
  predicate StageSound(p: Provider, s: State, identityId: string)
    requires identityId in s.staged
  {
    var stage := s.staged[identityId];
    && identityId in s.identities
    && stage.credentialId in s.credentials
    && stage.credentialId != s.identities[identityId].currentCredentialId
    && s.credentials[stage.credentialId].identityId == identityId
    && Decode(s.credentials[stage.credentialId].publicKey) == Decode(s.identities[identityId].nextPublicKey)
    && s.credentials[stage.credentialId].nextCommitment == p.Commit(stage.nextNextPublic)
    && p.publicOf(stage.nextNextSecret) == stage.nextNextPublic
  }

  ghost predicate Valid(p: Provider, s: State) {
    && (forall c :: c in s.credentials ==> IsBearer(c) && RowOpens(p, s.kek, c, s.credentials[c]))
    && (forall i :: i in s.identities ==> NextOpens(p, s.kek, i, s.identities[i]) && Committed(p, s, i))
    && (forall i :: i in s.staged ==> StageSound(p, s, i))
  }

  function Empty(kek: Option<Key>): State {
    State(kek, map[], map[], map[], map[])
  }

  /** What the steps of a run are trusted with: a KEK, once configured, stays; a discard is not overtaken by a stage. */
  predicate Allowed(s: State, e: Event) {
    && (e.DoRestart? ==> s.kek == None || e.kek == s.kek)
    && (e.DoWipe? ==> e.identityId !in s.staged)
  }

  predicate AllowedRun(p: Provider, s: State, events: seq<Event>)
    decreases |events|
  {
    events != [] ==> Allowed(s, events[0]) && AllowedRun(p, Step(p, s, events[0]), events[1..])
  }

  // ---- Tokens and contexts ----

  lemma {:induction false} HexShape(b: Bytes)
    ensures |Hex(b)| == 2 * |b| && IsHex(Hex(b))
  {
    if b != [] {
      HexShape(b[1..]);
    }
  }

  /** Every minted token has the customer-visible form cn-[a-f0-9]{48}. */
  lemma MintedTokenIsBearer(random: TokenBytes)
    ensures IsBearer(MintBearerToken(random))
  {
    HexShape(random);
    assert MintBearerToken(random)[3..] == Hex(random);
  }

  /** No two secret slots share a context: credential slots and next slots are told apart by it, and so are identities. */
  lemma ContextsAreSeparate(credentialId: string, i: string, j: string)
    ensures NextSecretAad(i) == i + ":next"
    ensures IsBearer(credentialId) ==> credentialId != NextSecretAad(i)
    ensures NextSecretAad(i) == NextSecretAad(j) ==> i == j
  {
    if IsBearer(credentialId) && |i| == 46 {
      assert credentialId[3..][43] in credentialId[3..];
      assert NextSecretAad(i)[46] == ':';
    }
    if NextSecretAad(i) == NextSecretAad(j) {
      assert i == NextSecretAad(i)[..|i|];
      assert j == NextSecretAad(j)[..|j|];
    }
  }

  // ---- Freshly written slots ----

  lemma NewRowOpens(
    p: Provider, kek: Option<Key>, credentialId: string, identityId: string, secretKey: Bytes, publicKey: Bytes,
    nextPublicKey: Bytes, issuedAt: int, ttlMs: int, iv: Iv)
    requires p.Lawful() && p.publicOf(secretKey) == publicKey
    ensures var row := NewRow(p, kek, credentialId, identityId, secretKey, publicKey, nextPublicKey, issuedAt, ttlMs, iv);
      && RowOpens(p, kek, credentialId, row)
      && Decode(row.publicKey) == publicKey
      && DecryptSecret(p.aead, kek, row.secretKey, credentialId) == Ok(secretKey)
  {
    RoundTrip(p.aead, kek, kek, iv, secretKey, credentialId);
    DecodeInvertsEncode(publicKey);
  }

  lemma NextRowOpens(
    p: Provider, kek: Option<Key>, identityId: string, currentId: string, nextPublicKey: Bytes, nextSecretKey: Bytes,
    ttlMs: int, iv: Iv)
    requires p.Lawful() && p.publicOf(nextSecretKey) == nextPublicKey
    ensures var ident := NextIdentityRow(p, kek, identityId, currentId, nextPublicKey, nextSecretKey, ttlMs, iv);
      && NextOpens(p, kek, identityId, ident)
      && Decode(ident.nextPublicKey) == nextPublicKey
  {
    RoundTrip(p.aead, kek, kek, iv, nextSecretKey, NextSecretAad(identityId));
    DecodeInvertsEncode(nextPublicKey);
  }

  // ---- Each step keeps the invariant ----

  /** Issue and adopt both add one credential and one identity that commits through it. */
  lemma InceptionKeepsValid(p: Provider, s: State, t: State, id: string, i: string, row: CredentialRow, ident: IdentityRow)
    requires Valid(p, s) && id !in s.credentials && i !in s.identities && IsBearer(id)
    requires RowOpens(p, s.kek, id, row) && NextOpens(p, s.kek, i, ident)
    requires row.identityId == i && row.nextCommitment == p.Commit(Decode(ident.nextPublicKey))
    requires ident.currentCredentialId == id
    requires t.kek == s.kek && t.staged == s.staged
    requires t.credentials == s.credentials[id := row] && t.identities == s.identities[i := ident]
    ensures Valid(p, t)
  {
    forall j | j in t.identities ensures NextOpens(p, t.kek, j, t.identities[j]) && Committed(p, t, j) {
      if j != i { assert Committed(p, s, j); }
    }
    forall j | j in t.staged ensures StageSound(p, t, j) { assert StageSound(p, s, j); }
  }

  lemma IssueKeepsValid(p: Provider, s: State, e: Event)
    requires p.Lawful() && Valid(p, s) && e.DoIssue?
    ensures Valid(p, Step(p, s, e))
  {
    var token := MintBearerToken(e.random);
    var t := Step(p, s, e);
    if t != s {
      MintedTokenIsBearer(e.random);
      var next := p.publicOf(e.nextSecretKey);
      NewRowOpens(p, s.kek, token, e.identityId, e.secretKey, p.publicOf(e.secretKey), next, e.issuedAt, e.ttlMs, e.iv);
      NextRowOpens(p, s.kek, e.identityId, token, next, e.nextSecretKey, e.ttlMs, e.nextIv);
      InceptionKeepsValid(p, s, t, token, e.identityId, t.credentials[token], t.identities[e.identityId]);
    }
  }

  lemma HalfIssueKeepsValid(p: Provider, s: State, e: Event)
    requires p.Lawful() && Valid(p, s) && e.DoHalfIssue?
    ensures Valid(p, Step(p, s, e))
  {
    var token := MintBearerToken(e.random);
    var t := Step(p, s, e);
    if t != s {
      MintedTokenIsBearer(e.random);
      NewRowOpens(p, s.kek, token, e.identityId, e.secretKey, p.publicOf(e.secretKey), p.publicOf(e.nextSecretKey),
                  e.issuedAt, e.ttlMs, e.iv);
      forall i | i in t.identities ensures Committed(p, t, i) { assert Committed(p, s, i); }
      forall i | i in t.staged ensures StageSound(p, t, i) { assert StageSound(p, s, i); }
    }
  }

  lemma AdoptKeepsValid(p: Provider, s: State, e: Event)
    requires p.Lawful() && Valid(p, s) && e.DoAdopt?
    ensures Valid(p, Step(p, s, e))
  {
    var t := Step(p, s, e);
    if t != s {
      var next := p.publicOf(e.nextSecretKey);
      NewRowOpens(p, s.kek, e.bearer, e.identityId, e.secretKey, p.publicOf(e.secretKey), next, e.issuedAt, e.ttlMs, e.iv);
      NextRowOpens(p, s.kek, e.identityId, e.bearer, next, e.nextSecretKey, e.ttlMs, e.nextIv);
      InceptionKeepsValid(p, s, t, e.bearer, e.identityId, t.credentials[e.bearer], t.identities[e.identityId]);
    }
  }

  /** Adding a staged row for the committed next key. */
  lemma StagingKeepsValid(p: Provider, s: State, t: State, id: string, i: string, row: CredentialRow, stage: Staged)
    requires Valid(p, s) && id !in s.credentials && IsBearer(id) && RowOpens(p, s.kek, id, row)
    requires i in s.identities && i !in s.staged && row.identityId == i && stage.credentialId == id
    requires Decode(row.publicKey) == Decode(s.identities[i].nextPublicKey)
    requires row.nextCommitment == p.Commit(stage.nextNextPublic)
    requires p.publicOf(stage.nextNextSecret) == stage.nextNextPublic
    requires t.kek == s.kek && t.identities == s.identities
    requires t.credentials == s.credentials[id := row] && t.staged == s.staged[i := stage]
    ensures Valid(p, t)
  {
    forall j | j in t.identities ensures NextOpens(p, t.kek, j, t.identities[j]) && Committed(p, t, j) {
      assert Committed(p, s, j);
    }
    forall j | j in t.staged ensures StageSound(p, t, j) {
      if j != i { assert StageSound(p, s, j); } else { assert Committed(p, s, i); }
    }
  }

  lemma StageKeepsValid(p: Provider, s: State, e: Event)
    requires p.Lawful() && Valid(p, s) && e.DoStage?
    ensures Valid(p, Step(p, s, e))
  {
    var t := Step(p, s, e);
    if t != s {
      var token := MintBearerToken(e.random);
      MintedTokenIsBearer(e.random);
      var ident := s.identities[e.identityId];
      assert NextOpens(p, s.kek, e.identityId, ident);
      var secret := DecryptSecret(p.aead, s.kek, ident.nextSecretKey, NextSecretAad(e.identityId)).value;
      NewRowOpens(p, s.kek, token, e.identityId, secret, Decode(ident.nextPublicKey), p.publicOf(e.nextNextSecret),
                  e.issuedAt, ident.ttlMs, e.iv);
      StagingKeepsValid(p, s, t, token, e.identityId, t.credentials[token], t.staged[e.identityId]);
    }
  }

  lemma CommitKeepsValid(p: Provider, s: State, e: Event)
    requires p.Lawful() && Valid(p, s) && e.DoCommit?
    ensures Valid(p, Step(p, s, e))
  {
    if e.identityId in s.staged {
      assert StageSound(p, s, e.identityId);
      var stage := s.staged[e.identityId];
      NextRowOpens(p, s.kek, e.identityId, stage.credentialId, stage.nextNextPublic, stage.nextNextSecret,
                   s.identities[e.identityId].ttlMs, e.iv);
      var t := Step(p, s, e);
      forall i | i in t.identities ensures Committed(p, t, i) {
        if i != e.identityId { assert Committed(p, s, i); }
      }
      forall i | i in t.staged ensures StageSound(p, t, i) { assert StageSound(p, s, i); }
    }
  }

  lemma AbortKeepsValid(p: Provider, s: State, e: Event)
    requires Valid(p, s) && e.DoAbort?
    ensures Valid(p, Step(p, s, e))
  {
    if e.identityId in s.staged {
      assert StageSound(p, s, e.identityId);
      var t := Step(p, s, e);
      forall i | i in t.identities ensures Committed(p, t, i) { assert Committed(p, s, i); }
      forall i | i in t.staged ensures StageSound(p, t, i) { assert StageSound(p, s, i); }
    }
  }

  lemma RevokeKeepsValid(p: Provider, s: State, e: Event)
    requires Valid(p, s) && e.DoRevoke?
    ensures Valid(p, Step(p, s, e))
  {
    var t := Step(p, s, e);
    forall i | i in t.identities ensures Committed(p, t, i) { assert Committed(p, s, i); }
    forall i | i in t.staged ensures StageSound(p, t, i) { assert StageSound(p, s, i); }
  }

  lemma RestartKeepsValid(p: Provider, s: State, e: Event)
    requires Valid(p, s) && e.DoRestart? && Allowed(s, e)
    ensures Valid(p, Step(p, s, e))
  {
    var t := Step(p, s, e);
    forall c | c in t.credentials ensures RowOpens(p, t.kek, c, t.credentials[c]) {
      assert RowOpens(p, s.kek, c, s.credentials[c]);
      if s.kek == None && !s.credentials[c].revoked {
        ConfiguringKekKeepsReads(p.aead, t.kek, s.credentials[c].secretKey, c);
      }
    }
    forall i | i in t.identities ensures NextOpens(p, t.kek, i, t.identities[i]) && Committed(p, t, i) {
      assert NextOpens(p, s.kek, i, s.identities[i]) && Committed(p, s, i);
      if s.kek == None {
        ConfiguringKekKeepsReads(p.aead, t.kek, s.identities[i].nextSecretKey, NextSecretAad(i));
      }
    }
  }

  lemma WipeKeepsValid(p: Provider, s: State, identityId: string)
    requires Valid(p, s) && identityId !in s.staged
    ensures Valid(p, Wipe(s, identityId))
  {
    var t := Wipe(s, identityId);
    forall i | i in t.identities ensures NextOpens(p, t.kek, i, t.identities[i]) && Committed(p, t, i) {
      assert Committed(p, s, i);
    }
    forall i | i in t.staged ensures StageSound(p, t, i) { assert StageSound(p, s, i); }
  }

  /** A discard's wipe leaves a sound state exactly when no stage slipped in since its abort. */
  lemma WipeKeepsValidIff(p: Provider, s: State, identityId: string)
    requires Valid(p, s)
    ensures Valid(p, Wipe(s, identityId)) <==> identityId !in s.staged
  {
    if identityId in s.staged {
      assert !StageSound(p, Wipe(s, identityId), identityId);
    } else {
      WipeKeepsValid(p, s, identityId);
    }
  }

  lemma StepKeepsValid(p: Provider, s: State, e: Event)
    requires p.Lawful() && Valid(p, s) && Allowed(s, e)
    ensures Valid(p, Step(p, s, e))
  {
    match e
    case DoIssue(_, _, _, _, _, _, _, _) => IssueKeepsValid(p, s, e);
    case DoHalfIssue(_, _, _, _, _, _, _) => HalfIssueKeepsValid(p, s, e);
    case DoStage(_, _, _, _, _, _) => StageKeepsValid(p, s, e);
    case DoCommit(_, _) => CommitKeepsValid(p, s, e);
    case DoAbort(_) => AbortKeepsValid(p, s, e);
    case DoRevoke(_) => RevokeKeepsValid(p, s, e);
    case DoWipe(i) => WipeKeepsValidIff(p, s, i);
    case DoAdopt(_, _, _, _, _, _, _, _) => AdoptKeepsValid(p, s, e);
    case DoRestart(_) => RestartKeepsValid(p, s, e);
  }

  lemma EmptyIsValid(p: Provider, kek: Option<Key>)
    ensures Valid(p, Empty(kek))
  {
  }

  /**
   In every run: each live credential row opens under its own id to the secret of its public key, each next slot
   opens under its own context to the secret of the next public key, and each current credential commits to exactly
   that next key.
   */
  lemma {:induction false} RunKeepsValid(p: Provider, s: State, events: seq<Event>)
    requires p.Lawful() && Valid(p, s) && AllowedRun(p, s, events)
    ensures Valid(p, Run(p, s, events))
    decreases |events|
  {
    if events != [] {
      StepKeepsValid(p, s, events[0]);
      RunKeepsValid(p, Step(p, s, events[0]), events[1..]);
    }
  }

  /** The invariant holds of whatever a run makes of an empty database. */
  lemma ReachableIsValid(p: Provider, kek: Option<Key>, events: seq<Event>)
    requires p.Lawful() && AllowedRun(p, Empty(kek), events)
    ensures Valid(p, Run(p, Empty(kek), events))
  {
    EmptyIsValid(p, kek);
    RunKeepsValid(p, Empty(kek), events);
  }
}
