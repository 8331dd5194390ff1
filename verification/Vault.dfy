/**
 Secrets at rest: AES-256-GCM behind the framing "v1:" + base64(iv | ciphertext | tag), with plain base64 as the
 passthrough used while no key-encryption key (KEK) is configured. The cipher itself is a parameter; what the
 proofs need of it is `Lawful`.
 */
module Vault {
  import opened Wrappers
  import opened Base64

  const IV_LEN := 12
  const TAG_LEN := 16
  const KEY_LEN := 32
  const PREFIX := "v1:"

  type Key = k: Bytes | |k| == KEY_LEN witness seq(32, _ => 0)
  type Iv = v: Bytes | |v| == IV_LEN witness seq(12, _ => 0)

  datatype Sealed = Sealed(ct: Bytes, tag: Bytes)

  /** An authenticated cipher: key, iv, additional data and payload. */
  datatype Aead = Aead(
    seal: (Key, Iv, string, Bytes) -> Sealed,
    open: (Key, Iv, string, Sealed) -> Option<Bytes>)
  {
    ghost predicate Lawful() {
      forall key: Key, iv: Iv, aad: string, pt: Bytes ::
        && |seal(key, iv, aad, pt).tag| == TAG_LEN
        && open(key, iv, aad, seal(key, iv, aad, pt)) == Some(pt)
    }
  }

  datatype Error = KekAbsent | TooShort | AuthFailed

  function EncryptSecret(aead: Aead, kek: Option<Key>, iv: Iv, plaintext: Bytes, aad: string): string {
    match kek
    case None => Encode(plaintext)
    case Some(key) =>
      var sealed := aead.seal(key, iv, aad, plaintext);
      PREFIX + Encode(iv + sealed.ct + sealed.tag)
  }

  function DecryptSecret(aead: Aead, kek: Option<Key>, stored: string, aad: string): Result<Bytes, Error> {
    if !(PREFIX <= stored) then Ok(Decode(stored))
    else if kek.None? then Err(KekAbsent)
    else
      var blob := Decode(stored[|PREFIX|..]);
      if |blob| < IV_LEN + TAG_LEN then Err(TooShort)
      else
        var iv := blob[..IV_LEN];
        var tag := blob[|blob| - TAG_LEN..];
        var ct := blob[IV_LEN..|blob| - TAG_LEN];
        match aead.open(kek.value, iv, aad, Sealed(ct, tag))
        case Some(pt) => Ok(pt)
        case None => Err(AuthFailed)
  }

  function NextSecretAad(identityId: string): string {
    identityId + ":next"
  }

  /** A plain value is never taken for a versioned one. */
  lemma PlainIsNotVersioned(b: Bytes)
    ensures !(PREFIX <= Encode(b))
  {
    EncodeHasNoColon(b);
    if 2 < |Encode(b)| {
      assert Encode(b)[2] != PREFIX[2];
    }
  }

  /** Unframing a framed blob hands the cipher exactly the iv, ciphertext and tag that were framed, whatever they are. */
  lemma UnframeInvertsFrame(aead: Aead, key: Key, iv: Iv, ct: Bytes, tag: Bytes, aad: string)
    requires |tag| == 16
    ensures |iv| == 12 && |key| == 32
    ensures DecryptSecret(aead, Some(key), "v1:" + Encode(iv + ct + tag), aad)
         == match aead.open(key, iv, aad, Sealed(ct, tag)) case Some(pt) => Ok(pt) case None => Err(AuthFailed)
  {
    var blob := iv + ct + tag;
    var stored := PREFIX + Encode(blob);
    assert stored[|PREFIX|..] == Encode(blob);
    DecodeInvertsEncode(blob);
    assert blob[..IV_LEN] == iv;
    assert blob[|blob| - TAG_LEN..] == tag;
    assert blob[IV_LEN..|blob| - TAG_LEN] == ct;
  }

  /**
   Nothing else opens: reading a versioned value succeeds exactly when the rest of it decodes to an iv of 12 octets, a
   ciphertext and a tag of 16 octets that the cipher opens under the context, and then with what the cipher opened.
   */
  lemma VersionedReadIff(aead: Aead, key: Key, stored: string, aad: string, plaintext: Bytes)
    requires "v1:" <= stored
    ensures DecryptSecret(aead, Some(key), stored, aad) == Ok(plaintext) <==>
      exists iv: Iv, ct: Bytes, tag: Bytes ::
        |tag| == 16 && Decode(stored[3..]) == iv + ct + tag && aead.open(key, iv, aad, Sealed(ct, tag)) == Some(plaintext)
  {
    var blob := Decode(stored[3..]);
    if iv: Iv, ct: Bytes, tag: Bytes :|
      |tag| == 16 && blob == iv + ct + tag && aead.open(key, iv, aad, Sealed(ct, tag)) == Some(plaintext) {
      assert blob[..12] == iv && blob[|blob| - 16..] == tag && blob[12..|blob| - 16] == ct;
    }
    if DecryptSecret(aead, Some(key), stored, aad) == Ok(plaintext) {
      var iv: Iv, ct, tag := blob[..12], blob[12..|blob| - 16], blob[|blob| - 16..];
      assert blob == iv + ct + tag;
    }
  }

  /** With a KEK a secret is written in the versioned form, without one as plain base64. */
  lemma WrittenForm(aead: Aead, kek: Option<Key>, iv: Iv, plaintext: Bytes, aad: string)
    ensures "v1:" <= EncryptSecret(aead, kek, iv, plaintext, aad) <==> kek.Some?
    ensures kek == None ==> EncryptSecret(aead, kek, iv, plaintext, aad) == Encode(plaintext)
  {
    PlainIsNotVersioned(plaintext);
  }

  /**
   A later process can read what an earlier one wrote when its KEK is the writer's, or the writer had none: the
   plaintext comes back under the additional data it was written with.
   */
  lemma RoundTrip(aead: Aead, writer: Option<Key>, reader: Option<Key>, iv: Iv, plaintext: Bytes, aad: string)
    requires aead.Lawful()
    requires reader == writer || writer == None
    ensures DecryptSecret(aead, reader, EncryptSecret(aead, writer, iv, plaintext, aad), aad) == Ok(plaintext)
  {
    match writer
    case None =>
      PlainIsNotVersioned(plaintext);
      DecodeInvertsEncode(plaintext);
    case Some(key) =>
      var sealed := aead.seal(key, iv, aad, plaintext);
      UnframeInvertsFrame(aead, key, iv, sealed.ct, sealed.tag, aad);
      assert sealed == Sealed(sealed.ct, sealed.tag);
  }

  /** Dropping the KEK is the one configuration change that loses every wrapped value, and it loses nothing else. */
  lemma ReadableWithoutKek(aead: Aead, writer: Option<Key>, iv: Iv, plaintext: Bytes, aad: string)
    ensures DecryptSecret(aead, None, EncryptSecret(aead, writer, iv, plaintext, aad), aad).Ok? <==> writer == None
  {
    match writer
    case None => PlainIsNotVersioned(plaintext);
    case Some(key) =>
      var sealed := aead.seal(key, iv, aad, plaintext);
      assert PREFIX <= PREFIX + Encode(iv + sealed.ct + sealed.tag);
  }

  /**
   A value pasted into another slot is refused exactly when it was wrapped: the cipher's check of the additional data,
   assumed here for the pair at hand, protects nothing that was stored in plain form.
   */
  lemma PasteIsRefusedIff(aead: Aead, kek: Option<Key>, iv: Iv, plaintext: Bytes, aad: string, other: string)
    requires aead.Lawful()
    requires kek.Some? ==> aead.open(kek.value, iv, other, aead.seal(kek.value, iv, aad, plaintext)).None?
    ensures DecryptSecret(aead, kek, EncryptSecret(aead, kek, iv, plaintext, aad), other).Err? <==> kek.Some?
  {
    match kek
    case None => PlainIsNotVersioned(plaintext);
    case Some(key) =>
      var sealed := aead.seal(key, iv, aad, plaintext);
      UnframeInvertsFrame(aead, key, iv, sealed.ct, sealed.tag, other);
      assert sealed == Sealed(sealed.ct, sealed.tag);
  }

  /** Configuring a KEK where there was none changes no successful read. */
  lemma ConfiguringKekKeepsReads(aead: Aead, kek: Option<Key>, stored: string, aad: string)
    requires DecryptSecret(aead, None, stored, aad).Ok?
    ensures DecryptSecret(aead, kek, stored, aad) == DecryptSecret(aead, None, stored, aad)
  {
  }

  /** Some cipher satisfies `Lawful`, so the results that assume it speak about something. */
  lemma LawfulIsSatisfiable() returns (aead: Aead)
    ensures aead.Lawful()
  {
    aead := Aead((key, iv, aad, pt) => Sealed(pt, seq(TAG_LEN, _ => 0)), (key, iv, aad, sealed: Sealed) => Some(sealed.ct));
  }
}
