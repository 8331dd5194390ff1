/**
 The rotation backend as an object over its database: tables and the stage map are updated in place, staged secrets
 live in buffers that abort zero-fills, and adoption runs in a transaction that rolls back. Each method does to
 `View()` what the function of the same name in `Rotation` says.
 */
module ApiKeyBackend {
  import opened Wrappers
  import opened Base64
  import opened Vault
  import R = Rotation

  /** An INSERT fails on a primary key that is already there, and when the database cannot write. */
  function InsertResult(present: bool, writable: bool): Result<(), R.Error> {
    if present then Err(R.DuplicateRow) else if writable then Ok(()) else Err(R.WriteFailed)
  }

  /** The three tables. */
  class Database {
    var credentials: map<string, R.CredentialRow>
    var identities: map<string, R.IdentityRow>
    var adoptions: map<string, R.AdoptionRow>

    constructor ()
      ensures credentials == map[] && identities == map[] && adoptions == map[]
    {
      credentials, identities, adoptions := map[], map[], map[];
    }

    method InsertCredential(id: string, row: R.CredentialRow, writable: bool) returns (result: Result<(), R.Error>)
      modifies this`credentials
      ensures result == InsertResult(id in old(credentials), writable)
      ensures credentials == if result.Ok? then old(credentials)[id := row] else old(credentials)
    {
      if id in credentials {
        return Err(R.DuplicateRow);
      }
      if !writable {
        return Err(R.WriteFailed);
      }
      credentials := credentials[id := row];
      return Ok(());
    }

    method InsertIdentity(id: string, row: R.IdentityRow, writable: bool) returns (result: Result<(), R.Error>)
      modifies this`identities
      ensures result == InsertResult(id in old(identities), writable)
      ensures identities == if result.Ok? then old(identities)[id := row] else old(identities)
    {
      if id in identities {
        return Err(R.DuplicateRow);
      }
      if !writable {
        return Err(R.WriteFailed);
      }
      identities := identities[id := row];
      return Ok(());
    }

    method InsertAdoption(bearer: string, row: R.AdoptionRow, writable: bool) returns (result: Result<(), R.Error>)
      modifies this`adoptions
      ensures result == InsertResult(bearer in old(adoptions), writable)
      ensures adoptions == if result.Ok? then old(adoptions)[bearer := row] else old(adoptions)
    {
      if bearer in adoptions {
        return Err(R.DuplicateRow);
      }
      if !writable {
        return Err(R.WriteFailed);
      }
      adoptions := adoptions[bearer := row];
      return Ok(());
    }
  }

  datatype StagedRotation = StagedRotation(credentialId: string, nextNextSecret: array<Byte>, nextNextPublic: Bytes)

  class ClawNetApiKeyBackend {
    const provider: R.Provider
    const kek: Option<Key>
    const db: Database
    var staged: map<string, StagedRotation>

    /** The secret buffers held in memory. */
    ghost function Buffers(): set<array<Byte>>
      reads this
    {
      set i | i in staged :: staged[i].nextNextSecret
    }

    /** No two stages share a buffer, so zeroing one leaves the others whole. */
    ghost predicate Valid()
      reads this
    {
      forall i, j :: i in staged && j in staged && i != j ==> staged[i].nextNextSecret != staged[j].nextNextSecret
    }

    ghost function StagedView(): map<string, R.Staged>
      reads this, Buffers()
    {
      map i | i in staged :: R.Staged(staged[i].credentialId, staged[i].nextNextSecret[..], staged[i].nextNextPublic)
    }

    ghost function View(): R.State
      reads this, db, Buffers()
    {
      R.State(kek, db.credentials, db.identities, db.adoptions, StagedView())
    }

    /** A new process over existing tables. */
    constructor (provider: R.Provider, kek: Option<Key>, db: Database)
      ensures Valid() && this.provider == provider && this.db == db && this.kek == kek
      ensures forall s: R.State ::
        s.credentials == db.credentials && s.identities == db.identities && s.adoptions == db.adoptions
        ==> View() == R.Restart(s, kek)
    {
      this.provider, this.kek, this.db, this.staged := provider, kek, db, map[];
    }

    /** Holds a stage in a buffer of its own. */
    method AddStage(identityId: string, credentialId: string, nextNextSecret: Bytes, nextNextPublic: Bytes)
      requires Valid()
      modifies this`staged
      ensures Valid()
      ensures StagedView() == old(StagedView())[identityId := R.Staged(credentialId, nextNextSecret, nextNextPublic)]
    {
      var buffer := new Byte[|nextNextSecret|](k requires 0 <= k < |nextNextSecret| => nextNextSecret[k]);
      assert buffer[..] == nextNextSecret;
      staged := staged[identityId := StagedRotation(credentialId, buffer, nextNextPublic)];
    }

    method DropStage(identityId: string)
      requires Valid()
      modifies this`staged
      ensures Valid() && staged == old(staged) - {identityId}
      ensures StagedView() == old(StagedView()) - {identityId}
    {
      staged := staged - {identityId};
    }

    /** Two INSERTs, each on its own; `writes` is how many the database lets through. */
    method IssueCredential(
      identityId: string, issuedAt: int, ttlMs: int, random: R.TokenBytes, secretKey: Bytes, nextSecretKey: Bytes,
      iv: Iv, nextIv: Iv, writes: nat) returns (result: Result<R.Credential, R.Error>)
      requires Valid()
      modifies db
      ensures Valid()
      ensures
        var issued :=
          R.Issue(provider, old(View()), identityId, issuedAt, ttlMs, random, secretKey, nextSecretKey, iv, nextIv);
        if issued.1.Err? || writes >= 2 then (View(), result) == issued
        else
          && result == Err(R.WriteFailed)
          && View() == if writes == 0 then old(View())
                       else R.HalfIssue(provider, old(View()), identityId, issuedAt, ttlMs, random, secretKey,
                                        nextSecretKey, iv)
    {
      if identityId in db.identities {
        return Err(R.AlreadyInceptioned);
      }
      var publicKey := provider.publicOf(secretKey);
      var nextPublic := provider.publicOf(nextSecretKey);
      var token := R.MintBearerToken(random);
      var row := R.NewRow(provider, kek, token, identityId, secretKey, publicKey, nextPublic, issuedAt, ttlMs, iv);
      var minted := db.InsertCredential(token, row, writes >= 1);
      assert StagedView() == old(StagedView());
      if minted.Err? {
        return Err(minted.error);
      }
      var ident := R.NextIdentityRow(provider, kek, identityId, token, nextPublic, nextSecretKey, ttlMs, nextIv);
      var inserted := db.InsertIdentity(identityId, ident, writes >= 2);
      assert StagedView() == old(StagedView());
      assert db.credentials == old(db.credentials)[token := row];
      if inserted.Err? {
        return Err(inserted.error);
      }
      return Ok(R.CredentialOf(provider, token, row, publicKey));
    }

    method StageNextCredential(
      identityId: string, oldCredentialId: string, issuedAt: int, random: R.TokenBytes, nextNextSecret: Bytes, iv: Iv,
      writable: bool) returns (result: Result<R.Credential, R.Error>)
      requires Valid()
      modifies this, db
      ensures Valid()
      ensures
        var stage := R.Stage(provider, old(View()), identityId, oldCredentialId, issuedAt, random, nextNextSecret, iv);
        (View(), result) == if stage.1.Err? || writable then stage else (old(View()), Err(R.WriteFailed))
    {
      if identityId in staged {
        return Err(R.StagedRotationConflict);
      }
      if identityId !in db.identities {
        return Err(R.UnknownIdentity);
      }
      var ident := db.identities[identityId];
      if ident.currentCredentialId != oldCredentialId {
        return Err(R.OldCredentialMismatch);
      }
      var promoted := DecryptSecret(provider.aead, kek, ident.nextSecretKey, NextSecretAad(identityId));
      if promoted.Err? {
        return Err(R.VaultFailure(promoted.error));
      }
      var promotedPublic := Decode(ident.nextPublicKey);
      var nextNextPublic := provider.publicOf(nextNextSecret);
      var token := R.MintBearerToken(random);
      var row := R.NewRow(provider, kek, token, identityId, promoted.value, promotedPublic, nextNextPublic, issuedAt,
                          ident.ttlMs, iv);
      var minted := db.InsertCredential(token, row, writable);
      assert StagedView() == old(StagedView());
      if minted.Err? {
        return Err(minted.error);
      }
      AddStage(identityId, token, nextNextSecret, nextNextPublic);
      return Ok(R.CredentialOf(provider, token, row, promotedPublic));
    }

    method CommitStagedRotation(identityId: string, iv: Iv) returns (result: Result<(), R.Error>)
      requires Valid()
      modifies this, db
      ensures Valid()
      ensures (View(), result) == R.Commit(provider, old(View()), identityId, iv)
    {
      if identityId !in staged {
        return Err(R.NoStagedRotation);
      }
      var stage := staged[identityId];
      if identityId in db.identities {
        db.identities := db.identities[identityId := R.NextIdentityRow(
          provider, kek, identityId, stage.credentialId, stage.nextNextPublic, stage.nextNextSecret[..],
          db.identities[identityId].ttlMs, iv)];
      }
      assert StagedView() == old(StagedView());
      DropStage(identityId);
      return Ok(());
    }

    method ZeroFill(buffer: array<Byte>)
      modifies buffer
      ensures forall k :: 0 <= k < buffer.Length ==> buffer[k] == 0
    {
      var k := 0;
      while k < buffer.Length
        invariant 0 <= k <= buffer.Length
        invariant forall j :: 0 <= j < k ==> buffer[j] == 0
      {
        buffer[k] := 0;
        k := k + 1;
      }
    }

    /** Deletes the staged row and zero-fills the next-next secret; the other stages keep their secrets. */
    method AbortStagedRotation(identityId: string)
      requires Valid()
      modifies this, db, Buffers()
      ensures Valid()
      ensures View() == R.Abort(old(View()), identityId)
      ensures identityId in old(staged) ==>
        var buffer := old(staged)[identityId].nextNextSecret;
        buffer !in Buffers() && forall k :: 0 <= k < buffer.Length ==> buffer[k] == 0
    {
      if identityId !in staged {
        return;
      }
      var stage := staged[identityId];
      db.credentials := db.credentials - {stage.credentialId};
      assert StagedView() == old(StagedView());
      DropStage(identityId);
      ZeroFill(stage.nextNextSecret);
      assert StagedView() == old(StagedView()) - {identityId};
    }

    method RevokeCredential(credentialId: string)
      requires Valid()
      modifies db
      ensures Valid()
      ensures View() == R.Revoke(old(View()), credentialId)
    {
      if credentialId in db.credentials {
        db.credentials := db.credentials[credentialId := R.RevokedRow(db.credentials[credentialId])];
      }
    }

    /** The discard transaction: overwrite, then delete the credentials, then delete the identity. */
    method WipeIdentity(identityId: string)
      requires Valid()
      modifies db
      ensures Valid()
      ensures View() == R.Wipe(old(View()), identityId)
    {
      OverwriteRows(identityId);
      db.credentials := R.WithoutIdentity(db.credentials, identityId);
      db.identities := db.identities - {identityId};
      assert StagedView() == old(StagedView());
    }

    /** UPDATE ... SET secret_key = zeros, revoked = 1 WHERE identity_id = ?. */
    method OverwriteRows(identityId: string)
      modifies db`credentials
      ensures R.WithoutIdentity(db.credentials, identityId) == R.WithoutIdentity(old(db.credentials), identityId)
      ensures forall c :: c in db.credentials && db.credentials[c].identityId == identityId ==>
        db.credentials[c].revoked && db.credentials[c].secretKey == R.ZeroedSecret()
    {
      db.credentials := map c | c in db.credentials ::
        if db.credentials[c].identityId == identityId then R.RevokedRow(db.credentials[c]) else db.credentials[c];
    }

    /** A discard that no other call overtakes. */
    method DiscardIdentity(identityId: string)
      requires Valid()
      modifies this, db, Buffers()
      ensures Valid()
      ensures View() == R.Wipe(R.Abort(old(View()), identityId), identityId)
    {
      if identityId in staged {
        AbortStagedRotation(identityId);
      }
      WipeIdentity(identityId);
    }

    /** Whether one of a first adoption's INSERTs is refused when the database lets `writes` of them through. */
    static predicate AdoptionRefused(s: R.State, bearer: string, identityId: string, writes: nat) {
      && R.IsBearer(bearer) && bearer !in s.adoptions && bearer !in s.credentials
      && (writes == 0 || (writes < 3 && identityId !in s.identities))
    }

    /** One transaction: a refused INSERT undoes those before it. */
    method AdoptPreVerifiedBearer(
      bearer: string, identityId: string, issuedAt: int, ttlMs: int, secretKey: Bytes, nextSecretKey: Bytes, iv: Iv,
      nextIv: Iv, writes: nat) returns (result: Result<R.Adoption, R.Error>)
      requires Valid()
      modifies db
      ensures Valid()
      ensures (View(), result)
           == if AdoptionRefused(old(View()), bearer, identityId, writes) then (old(View()), Err(R.WriteFailed))
              else R.Adopt(provider, old(View()), bearer, identityId, issuedAt, ttlMs, secretKey, nextSecretKey, iv, nextIv)
    {
      if !R.IsBearer(bearer) {
        return Err(R.BadBearer);
      }
      var publicKey := provider.publicOf(secretKey);
      var nextPublic := provider.publicOf(nextSecretKey);
      var row := R.NewRow(provider, kek, bearer, identityId, secretKey, publicKey, nextPublic, issuedAt, ttlMs, iv);
      var ident := R.NextIdentityRow(provider, kek, identityId, bearer, nextPublic, nextSecretKey, ttlMs, nextIv);
      // The transaction: what is restored when its body throws.
      var credentials, identities, adoptions := db.credentials, db.identities, db.adoptions;
      result := AdoptInTransaction(bearer, row, ident, R.AdoptionRow(identityId, issuedAt), publicKey, writes);
      if result.Err? {
        db.credentials, db.identities, db.adoptions := credentials, identities, adoptions;
      }
      assert StagedView() == old(StagedView());
    }

    /** The transaction body; on an error it may have inserted some of the rows. */
    method AdoptInTransaction(
      bearer: string, row: R.CredentialRow, ident: R.IdentityRow, adoption: R.AdoptionRow, publicKey: Bytes,
      writes: nat) returns (result: Result<R.Adoption, R.Error>)
      modifies db
      ensures bearer in old(db.adoptions) ==> unchanged(db)
      ensures bearer in old(db.adoptions) ==>
        result == if bearer !in db.credentials then Err(R.AdoptedRowMissing)
                  else Ok(R.Adoption(R.CredentialOf(provider, bearer, db.credentials[bearer],
                                                    Decode(db.credentials[bearer].publicKey)),
                                     bearer, db.adoptions[bearer], true))
      ensures bearer !in old(db.adoptions) ==>
        result == if bearer in old(db.credentials) then Err(R.BearerCollision)
                  else if writes == 0 then Err(R.WriteFailed)
                  else if adoption.identityId in old(db.identities) then Err(R.DuplicateRow)
                  else if writes < 3 then Err(R.WriteFailed)
                  else Ok(R.Adoption(R.CredentialOf(provider, bearer, row, publicKey), bearer, adoption, false))
      ensures bearer !in old(db.adoptions) && result.Ok? ==>
        && db.credentials == old(db.credentials)[bearer := row]
        && db.identities == old(db.identities)[adoption.identityId := ident]
        && db.adoptions == old(db.adoptions)[bearer := adoption]
    {
      if bearer in db.adoptions {
        if bearer !in db.credentials {
          return Err(R.AdoptedRowMissing);
        }
        var stored := db.credentials[bearer];
        return Ok(R.Adoption(R.CredentialOf(provider, bearer, stored, Decode(stored.publicKey)), bearer,
                             db.adoptions[bearer], true));
      }
      if bearer in db.credentials {
        return Err(R.BearerCollision);
      }
      var minted := db.InsertCredential(bearer, row, writes >= 1);
      if minted.Err? {
        return Err(minted.error);
      }
      var inserted := db.InsertIdentity(adoption.identityId, ident, writes >= 2);
      if inserted.Err? {
        return Err(inserted.error);
      }
      var adopted := db.InsertAdoption(bearer, adoption, writes >= 3);
      if adopted.Err? {
        return Err(adopted.error);
      }
      return Ok(R.Adoption(R.CredentialOf(provider, bearer, row, publicKey), bearer, adoption, false));
    }

    method SignWithCredential(credentialId: string, message: Bytes) returns (result: Result<Bytes, R.Error>)
      ensures result == R.Sign(provider, View(), credentialId, message)
    {
      if credentialId !in db.credentials {
        return Err(R.UnknownCredential);
      }
      var row := db.credentials[credentialId];
      if row.revoked {
        return Err(R.CredentialRevoked);
      }
      var secret := DecryptSecret(provider.aead, kek, row.secretKey, credentialId);
      if secret.Err? {
        return Err(R.VaultFailure(secret.error));
      }
      return Ok(provider.sign(message, secret.value));
    }

    method VerifyWithCredential(credentialId: string, message: Bytes, signature: Bytes) returns (ok: bool)
      ensures ok == R.Verify(provider, View(), credentialId, message, signature)
    {
      if credentialId !in db.credentials || db.credentials[credentialId].revoked {
        return false;
      }
      return provider.verify(message, signature, Decode(db.credentials[credentialId].publicKey));
    }

    method LookupByBearer(bearer: string, now: int) returns (result: Option<(string, int)>)
      ensures result == R.Lookup(View(), bearer, now)
    {
      if bearer !in db.credentials || db.credentials[bearer].revoked {
        return None;
      }
      var row := db.credentials[bearer];
      if row.expiresAt <= now {
        return None;
      }
      return Some((row.identityId, row.expiresAt));
    }

    method GetCurrentCredentialId(identityId: string) returns (id: Option<string>)
      ensures id == if identityId in View().identities
                    then Some(View().identities[identityId].currentCredentialId) else None
    {
      if identityId in db.identities {
        return Some(db.identities[identityId].currentCredentialId);
      }
      return None;
    }
  }
}
