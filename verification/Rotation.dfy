/**
 What each operation of the API-key rotation backend does to the three SQL tables and the in-memory stage map.
 Random values (key material, ivs, token bytes) are arguments; signing keys, the commitment hash and the cipher
 come from `Provider`.
 */
module Rotation {
  import opened Wrappers
  import opened Base64
  import opened Vault

  const ALGORITHM_SUITE := "ed25519"

  type TokenBytes = b: Bytes | |b| == 24 witness seq(24, _ => 0)

  datatype Provider = Provider(
    backendId: string,
    credentialClass: string,
    aead: Aead,
    publicOf: Bytes -> Bytes,
    commitment: (string, string, Bytes) -> string,
    sign: (Bytes, Bytes) -> Bytes,
    verify: (Bytes, Bytes, Bytes) -> bool)
  {
    ghost predicate Lawful() {
      && aead.Lawful()
      && forall message: Bytes, secret: Bytes :: verify(message, sign(message, secret), publicOf(secret))
    }

    /** The manifest commitment a credential makes to the next public key. */
    function Commit(publicKey: Bytes): string {
      commitment(backendId, ALGORITHM_SUITE, publicKey)
    }
  }

  datatype CredentialRow = CredentialRow(
    identityId: string, algorithmSuite: string, credentialClass: string, publicKey: string, secretKey: string,
    nextCommitment: string, issuedAt: int, expiresAt: int, revoked: bool)

  datatype IdentityRow = IdentityRow(
    currentCredentialId: string, nextPublicKey: string, nextSecretKey: string, ttlMs: int)

  datatype AdoptionRow = AdoptionRow(identityId: string, adoptedAt: int)

  datatype Staged = Staged(credentialId: string, nextNextSecret: Bytes, nextNextPublic: Bytes)

  datatype Credential = Credential(
    credentialId: string, identityId: string, backendId: string, algorithmSuite: string, credentialClass: string,
    publicKey: Bytes, issuedAt: int, expiresAt: int, nextCommitment: string)

  datatype Adoption = Adoption(credential: Credential, bearer: string, row: AdoptionRow, idempotent: bool)

  datatype Error =
    | AlreadyInceptioned | StagedRotationConflict | UnknownIdentity | OldCredentialMismatch | NoStagedRotation
    | VaultFailure(cause: Vault.Error) | DuplicateRow | BadBearer | AdoptedRowMissing | BearerCollision
    | UnknownCredential | CredentialRevoked | WriteFailed

  datatype State = State(
    kek: Option<Key>,
    credentials: map<string, CredentialRow>,
    identities: map<string, IdentityRow>,
    adoptions: map<string, AdoptionRow>,
    staged: map<string, Staged>)

  // ---- Bearer tokens ----

  function HexDigit(n: int): char
    requires 0 <= n < 16
  {
    if n < 10 then ('0' as int + n) as char else ('a' as int + n - 10) as char
  }

  function Hex(b: Bytes): string {
    if b == [] then "" else [HexDigit(b[0] / 16), HexDigit(b[0] % 16)] + Hex(b[1..])
  }

  predicate IsHex(s: string) {
    forall c :: c in s ==> '0' <= c <= '9' || 'a' <= c <= 'f'
  }

  /** Matches cn-[a-f0-9]{48}. */
  predicate IsBearer(s: string) {
    |s| == 51 && s[..3] == "cn-" && IsHex(s[3..])
  }

  function MintBearerToken(random: TokenBytes): string {
    "cn-" + Hex(random)
  }

  // ---- Minting ----

  function NewRow(
    p: Provider, kek: Option<Key>, credentialId: string, identityId: string, secretKey: Bytes, publicKey: Bytes,
    nextPublicKey: Bytes, issuedAt: int, ttlMs: int, iv: Iv): CredentialRow
  {
    CredentialRow(
      identityId, ALGORITHM_SUITE, p.credentialClass, Encode(publicKey),
      EncryptSecret(p.aead, kek, iv, secretKey, credentialId), p.Commit(nextPublicKey), issuedAt, issuedAt + ttlMs,
      false)
  }

  /** The credential handed back for a row; the public key is passed in the form the caller holds it. */
  function CredentialOf(p: Provider, credentialId: string, row: CredentialRow, publicKey: Bytes): Credential {
    Credential(
      credentialId, row.identityId, p.backendId, ALGORITHM_SUITE, row.credentialClass, publicKey, row.issuedAt,
      row.expiresAt, row.nextCommitment)
  }

  function NextIdentityRow(
    p: Provider, kek: Option<Key>, identityId: string, currentId: string, nextPublicKey: Bytes, nextSecretKey: Bytes,
    ttlMs: int, iv: Iv): IdentityRow
  {
    IdentityRow(
      currentId, Encode(nextPublicKey), EncryptSecret(p.aead, kek, iv, nextSecretKey, NextSecretAad(identityId)), ttlMs)
  }

  function Issue(
    p: Provider, s: State, identityId: string, issuedAt: int, ttlMs: int, random: TokenBytes, secretKey: Bytes,
    nextSecretKey: Bytes, iv: Iv, nextIv: Iv): (State, Result<Credential, Error>)
  {
    var token := MintBearerToken(random);
    if identityId in s.identities then (s, Err(AlreadyInceptioned))
    else if token in s.credentials then (s, Err(DuplicateRow))
    else
      var nextPublic := p.publicOf(nextSecretKey);
      var publicKey := p.publicOf(secretKey);
      var row := NewRow(p, s.kek, token, identityId, secretKey, publicKey, nextPublic, issuedAt, ttlMs, iv);
      var ident := NextIdentityRow(p, s.kek, identityId, token, nextPublic, nextSecretKey, ttlMs, nextIv);
      (s.(credentials := s.credentials[token := row], identities := s.identities[identityId := ident]),
       Ok(CredentialOf(p, token, row, publicKey)))
  }

  /** An issue whose first INSERT went through and whose second did not: the two are not one transaction. */
  function HalfIssue(
    p: Provider, s: State, identityId: string, issuedAt: int, ttlMs: int, random: TokenBytes, secretKey: Bytes,
    nextSecretKey: Bytes, iv: Iv): State
  {
    var token := MintBearerToken(random);
    if identityId in s.identities || token in s.credentials then s
    else
      var row := NewRow(
        p, s.kek, token, identityId, secretKey, p.publicOf(secretKey), p.publicOf(nextSecretKey), issuedAt, ttlMs, iv);
      s.(credentials := s.credentials[token := row])
  }

  function Stage(
    p: Provider, s: State, identityId: string, oldCredentialId: string, issuedAt: int, random: TokenBytes,
    nextNextSecret: Bytes, iv: Iv): (State, Result<Credential, Error>)
  {
    if identityId in s.staged then (s, Err(StagedRotationConflict))
    else if identityId !in s.identities then (s, Err(UnknownIdentity))
    else
      var ident := s.identities[identityId];
      if ident.currentCredentialId != oldCredentialId then (s, Err(OldCredentialMismatch))
      else
        match DecryptSecret(p.aead, s.kek, ident.nextSecretKey, NextSecretAad(identityId))
        case Err(cause) => (s, Err(VaultFailure(cause)))
        case Ok(promotedSecret) =>
          var promotedPublic := Decode(ident.nextPublicKey);
          var token := MintBearerToken(random);
          if token in s.credentials then (s, Err(DuplicateRow))
          else
            var nextNextPublic := p.publicOf(nextNextSecret);
            var row := NewRow(
              p, s.kek, token, identityId, promotedSecret, promotedPublic, nextNextPublic, issuedAt, ident.ttlMs, iv);
            (s.(credentials := s.credentials[token := row],
                staged := s.staged[identityId := Staged(token, nextNextSecret, nextNextPublic)]),
             Ok(CredentialOf(p, token, row, promotedPublic)))
  }

  function Commit(p: Provider, s: State, identityId: string, iv: Iv): (State, Result<(), Error>) {
    if identityId !in s.staged then (s, Err(NoStagedRotation))
    else
      var stage := s.staged[identityId];
      var identities :=
        if identityId in s.identities then
          s.identities[identityId := NextIdentityRow(
            p, s.kek, identityId, stage.credentialId, stage.nextNextPublic, stage.nextNextSecret,
            s.identities[identityId].ttlMs, iv)]
        else s.identities;
      (s.(identities := identities, staged := s.staged - {identityId}), Ok(()))
  }

  function Abort(s: State, identityId: string): State {
    if identityId !in s.staged then s
    else s.(credentials := s.credentials - {s.staged[identityId].credentialId}, staged := s.staged - {identityId})
  }

  /** What a revoked row keeps in its secret column: 64 zero bytes, the length of an Ed25519 secret. */
  function ZeroedSecret(): string {
    Encode(seq(64, _ => 0))
  }

  function RevokedRow(row: CredentialRow): CredentialRow {
    row.(revoked := true, secretKey := ZeroedSecret())
  }

  function Revoke(s: State, credentialId: string): State {
    if credentialId in s.credentials then
      s.(credentials := s.credentials[credentialId := RevokedRow(s.credentials[credentialId])])
    else s
  }

  function WithoutIdentity(rows: map<string, CredentialRow>, identityId: string): map<string, CredentialRow> {
    map c | c in rows && rows[c].identityId != identityId :: rows[c]
  }

  /** The transaction that ends a discard. The `await` before it lets other calls run between the abort and this. */
  function Wipe(s: State, identityId: string): State {
    s.(credentials := WithoutIdentity(s.credentials, identityId), identities := s.identities - {identityId})
  }

  function Adopt(
    p: Provider, s: State, bearer: string, identityId: string, issuedAt: int, ttlMs: int, secretKey: Bytes,
    nextSecretKey: Bytes, iv: Iv, nextIv: Iv): (State, Result<Adoption, Error>)
  {
    if !IsBearer(bearer) then (s, Err(BadBearer))
    else if bearer in s.adoptions then
      if bearer !in s.credentials then (s, Err(AdoptedRowMissing))
      else
        var row := s.credentials[bearer];
        (s, Ok(Adoption(CredentialOf(p, bearer, row, Decode(row.publicKey)), bearer, s.adoptions[bearer], true)))
    else if bearer in s.credentials then (s, Err(BearerCollision))
    else if identityId in s.identities then (s, Err(DuplicateRow))
    else
      var publicKey := p.publicOf(secretKey);
      var nextPublic := p.publicOf(nextSecretKey);
      var row := NewRow(p, s.kek, bearer, identityId, secretKey, publicKey, nextPublic, issuedAt, ttlMs, iv);
      var ident := NextIdentityRow(p, s.kek, identityId, bearer, nextPublic, nextSecretKey, ttlMs, nextIv);
      var adoption := AdoptionRow(identityId, issuedAt);
      (s.(credentials := s.credentials[bearer := row], identities := s.identities[identityId := ident],
          adoptions := s.adoptions[bearer := adoption]),
       Ok(Adoption(CredentialOf(p, bearer, row, publicKey), bearer, adoption, false)))
  }

  /** A process restart keeps the tables and loses the stage map. */
  function Restart(s: State, kek: Option<Key>): State {
    s.(kek := kek, staged := map[])
  }

  // ---- Reads ----

  function Sign(p: Provider, s: State, credentialId: string, message: Bytes): Result<Bytes, Error> {
    if credentialId !in s.credentials then Err(UnknownCredential)
    else if s.credentials[credentialId].revoked then Err(CredentialRevoked)
    else
      match DecryptSecret(p.aead, s.kek, s.credentials[credentialId].secretKey, credentialId)
      case Err(cause) => Err(VaultFailure(cause))
      case Ok(secret) => Ok(p.sign(message, secret))
  }

  predicate Verify(p: Provider, s: State, credentialId: string, message: Bytes, signature: Bytes) {
    && credentialId in s.credentials
    && !s.credentials[credentialId].revoked
    && p.verify(message, signature, Decode(s.credentials[credentialId].publicKey))
  }

  function Lookup(s: State, bearer: string, now: int): Option<(string, int)> {
    if bearer !in s.credentials || s.credentials[bearer].revoked || s.credentials[bearer].expiresAt <= now then None
    else Some((s.credentials[bearer].identityId, s.credentials[bearer].expiresAt))
  }

  // ---- Runs ----

  datatype Event =
    | DoIssue(identityId: string, issuedAt: int, ttlMs: int, random: TokenBytes, secretKey: Bytes,
              nextSecretKey: Bytes, iv: Iv, nextIv: Iv)
    | DoHalfIssue(identityId: string, issuedAt: int, ttlMs: int, random: TokenBytes, secretKey: Bytes,
                  nextSecretKey: Bytes, iv: Iv)
    | DoStage(identityId: string, oldCredentialId: string, issuedAt: int, random: TokenBytes, nextNextSecret: Bytes,
              iv: Iv)
    | DoCommit(identityId: string, iv: Iv)
    | DoAbort(identityId: string)
    | DoRevoke(credentialId: string)
    | DoWipe(identityId: string)
    | DoAdopt(bearer: string, identityId: string, issuedAt: int, ttlMs: int, secretKey: Bytes, nextSecretKey: Bytes,
              iv: Iv, nextIv: Iv)
    | DoRestart(kek: Option<Key>)

  function Step(p: Provider, s: State, e: Event): State {
    match e
    case DoIssue(i, issuedAt, ttlMs, random, secret, nextSecret, iv, nextIv) =>
      Issue(p, s, i, issuedAt, ttlMs, random, secret, nextSecret, iv, nextIv).0
    case DoHalfIssue(i, issuedAt, ttlMs, random, secret, nextSecret, iv) =>
      HalfIssue(p, s, i, issuedAt, ttlMs, random, secret, nextSecret, iv)
    case DoStage(i, oldId, issuedAt, random, secret, iv) => Stage(p, s, i, oldId, issuedAt, random, secret, iv).0
    case DoCommit(i, iv) => Commit(p, s, i, iv).0
    case DoAbort(i) => Abort(s, i)
    case DoRevoke(c) => Revoke(s, c)
    case DoWipe(i) => Wipe(s, i)
    case DoAdopt(b, i, issuedAt, ttlMs, secret, nextSecret, iv, nextIv) =>
      Adopt(p, s, b, i, issuedAt, ttlMs, secret, nextSecret, iv, nextIv).0
    case DoRestart(kek) => Restart(s, kek)
  }

  function Run(p: Provider, s: State, events: seq<Event>): State
    decreases |events|
  {
    if events == [] then s else Run(p, Step(p, s, events[0]), events[1..])
  }
}
