/**
 * Envelope encryption: agent/src/secrets.ts and its port agent-durable/src/scadbuddy_durable/secrets.py.
 * AES-256-GCM is a record of functions; the sealed format and the slicing are concrete.
 */
module Secrets {
  import opened Wrappers
  import opened Bytes
  import opened Json

  const IV_BYTES := 12
  const TAG_BYTES := 16
  const HEADER_BYTES := 29
  const SEAL_V1: byte := 1
  const SEAL_V2: byte := 2

  datatype SealError = Malformed | Unauthentic | WrongKey

  /** What GCM makes of a plaintext. */
  datatype Ciphered = Ciphered(tag: seq<byte>, text: seq<byte>)

  /** The authenticated data is the context's text, which each side encodes as UTF-8. */
  datatype Aead = Aead(
    encrypt: (seq<byte>, seq<byte>, seq<byte>, Text) -> Ciphered,
    decrypt: (seq<byte>, seq<byte>, Ciphered, Text) -> Option<seq<byte>>)
  {
    /** GCM: decryption gives exactly the plaintext whose encryption has that tag and text. */
    ghost predicate Lawful() {
      && (forall k, iv, p, aad {:trigger encrypt(k, iv, p, aad)} ::
            |encrypt(k, iv, p, aad).tag| == TAG_BYTES && |encrypt(k, iv, p, aad).text| == |p|
            && decrypt(k, iv, encrypt(k, iv, p, aad), aad) == Some(p))
      && (forall k, iv, c, aad {:trigger decrypt(k, iv, c, aad)} ::
            decrypt(k, iv, c, aad).Some? ==> encrypt(k, iv, decrypt(k, iv, c, aad).value, aad) == c)
    }

    /** Of these contexts no two share a tag: what authentication rests on. */
    ghost predicate Binds(contexts: set<Text>) {
      forall k, iv, p, aad, aad2 {:trigger decrypt(k, iv, encrypt(k, iv, p, aad), aad2)} ::
        aad in contexts && aad2 in contexts && decrypt(k, iv, encrypt(k, iv, p, aad), aad2).Some? ==> aad == aad2
    }

    /** Under these keys and in these contexts only the key and the context it was sealed with open a text. */
    ghost predicate Authenticates(keys: set<seq<byte>>, contexts: set<Text>) {
      forall k, k2, iv, p, aad, aad2 {:trigger decrypt(k2, iv, encrypt(k, iv, p, aad), aad2)} ::
        k in keys && k2 in keys && aad in contexts && aad2 in contexts ==>
          decrypt(k2, iv, encrypt(k, iv, p, aad), aad2).Some? ==> k == k2 && aad == aad2
    }
  }

  /** `aadFor`: from v2 on the version is part of it. */
  function AadFor(version: byte, context: Text): Text
    requires version == SEAL_V1 || version == SEAL_V2
  {
    if version == SEAL_V1 then context else [0x76, 0x32, 0x7C] + context
  }

  /** The bytes of a sealed value: version, IV, tag, ciphertext. */
  function Sealed(a: Aead, version: byte, key: seq<byte>, plain: seq<byte>, context: Text, iv: seq<byte>): seq<byte>
    requires version == SEAL_V1 || version == SEAL_V2
  {
    var c := a.encrypt(key, iv, plain, AadFor(version, context));
    [version] + iv + c.tag + c.text
  }

  function Seal(a: Aead, key: seq<byte>, plain: seq<byte>, context: Text, iv: seq<byte>): seq<byte> {
    Sealed(a, SEAL_V2, key, plain, context, iv)
  }

  function Open(a: Aead, key: seq<byte>, sealed: seq<byte>, context: Text): Result<seq<byte>, SealError> {
    if |sealed| < HEADER_BYTES || (sealed[0] != SEAL_V1 && sealed[0] != SEAL_V2) then
      Err(Malformed)
    else
      var iv := sealed[1..1 + IV_BYTES];
      var tag := sealed[1 + IV_BYTES..HEADER_BYTES];
      match a.decrypt(key, iv, Ciphered(tag, sealed[HEADER_BYTES..]), AadFor(sealed[0], context))
      case None => Err(Unauthentic)
      case Some(plain) => Ok(plain)
  }

  /** A value opens exactly when it is some plaintext sealed, under that key and in that context. */
  lemma OpensWhatWasSealed(a: Aead, key: seq<byte>, sealed: seq<byte>, context: Text, plain: seq<byte>)
    requires a.Lawful()
    ensures Open(a, key, sealed, context) == Ok(plain) <==>
            && |sealed| >= HEADER_BYTES && (sealed[0] == SEAL_V1 || sealed[0] == SEAL_V2)
            && sealed == Sealed(a, sealed[0], key, plain, context, sealed[1..1 + IV_BYTES])
  {
  }

  /** Everything is written as v2, 29 bytes longer than the plaintext, and opens to it. */
  lemma SealOpens(a: Aead, key: seq<byte>, plain: seq<byte>, context: Text, iv: seq<byte>)
    requires a.Lawful() && |iv| == IV_BYTES
    ensures Open(a, key, Seal(a, key, plain, context, iv), context) == Ok(plain)
    ensures Seal(a, key, plain, context, iv)[0] == 2 && Seal(a, key, plain, context, iv)[1..13] == iv
    ensures |Seal(a, key, plain, context, iv)| == 29 + |plain|
  {
    var sealed := Seal(a, key, plain, context, iv);
    assert sealed[1..1 + IV_BYTES] == iv;
    OpensWhatWasSealed(a, key, sealed, context, plain);
  }

  /** What is authenticated: of a v1 value its context, of a v2 value that after its version; a data key's apart. */
  lemma ContextTexts(context: Text)
    ensures AadFor(1, context) == context && AadFor(2, context) == Ascii("v2|") + context
    ensures DekContext(context) == Ascii("dek:") + context
  {
  }

  /** What was sealed opens under its key and in its context, and under another or elsewhere not at all. */
  lemma OpensOnlyAsSealed(
    a: Aead, key: seq<byte>, sealKey: seq<byte>, plain: seq<byte>, context: Text, sealContext: Text, iv: seq<byte>)
    requires a.Lawful() && |iv| == IV_BYTES
    requires a.Authenticates({key, sealKey}, {AadFor(SEAL_V2, context), AadFor(SEAL_V2, sealContext)})
    ensures Open(a, key, Seal(a, sealKey, plain, sealContext, iv), context)
         == if key == sealKey && context == sealContext then Ok(plain) else Err(Unauthentic)
  {
    SealOpens(a, sealKey, plain, sealContext, iv);
    var sealed := Seal(a, sealKey, plain, sealContext, iv);
    var mine, theirs := AadFor(SEAL_V2, context), AadFor(SEAL_V2, sealContext);
    var c := a.encrypt(sealKey, iv, plain, theirs);
    assert sealed[1..1 + IV_BYTES] == iv;
    assert sealed[1 + IV_BYTES..HEADER_BYTES] == c.tag && sealed[HEADER_BYTES..] == c.text;
    assert mine[3..] == context && theirs[3..] == sealContext;
    assert key in {key, sealKey} && mine in {mine, theirs} && theirs in {mine, theirs};
    assert a.decrypt(key, iv, c, mine).Some? ==> key == sealKey && mine == theirs;
  }

  /* ---- the port ---- */

  /** `AESGCM.decrypt`, which takes the tag after the ciphertext. */
  function DecryptJoined(a: Aead, key: seq<byte>, iv: seq<byte>, joined: seq<byte>, aad: Text): Option<seq<byte>> {
    if |joined| < TAG_BYTES then None
    else a.decrypt(key, iv, Ciphered(joined[|joined| - TAG_BYTES..], joined[..|joined| - TAG_BYTES]), aad)
  }

  function PyOpen(a: Aead, key: seq<byte>, sealed: seq<byte>, context: Text): Result<seq<byte>, SealError> {
    if |sealed| < HEADER_BYTES || (sealed[0] != SEAL_V1 && sealed[0] != SEAL_V2) then
      Err(Malformed)
    else
      var iv := sealed[1..1 + IV_BYTES];
      var tag := sealed[1 + IV_BYTES..HEADER_BYTES];
      match DecryptJoined(a, key, iv, sealed[HEADER_BYTES..] + tag, AadFor(sealed[0], context))
      case None => Err(Unauthentic)
      case Some(plain) => Ok(plain)
  }

  /** `seal_bytes`: the tag is cut off the end of what AESGCM gives and put before it. */
  function PySeal(a: Aead, key: seq<byte>, plain: seq<byte>, context: Text, iv: seq<byte>): seq<byte> {
    var c := a.encrypt(key, iv, plain, AadFor(SEAL_V2, context));
    var out := c.text + c.tag;
    if |out| < TAG_BYTES then [SEAL_V2] + iv + out
    else [SEAL_V2] + iv + out[|out| - TAG_BYTES..] + out[..|out| - TAG_BYTES]
  }

  /** Each side opens what the other sealed, and refuses the same bytes. */
  lemma PortAgrees(a: Aead, key: seq<byte>, bytes: seq<byte>, context: Text, iv: seq<byte>)
    requires a.Lawful()
    ensures PyOpen(a, key, bytes, context) == Open(a, key, bytes, context)
    ensures PySeal(a, key, bytes, context, iv) == Seal(a, key, bytes, context, iv)
  {
  }

  /* ---- envelopes ---- */

  /** A key-encryption key; `id` is the start of its SHA-256. */
  datatype Kek = Kek(id: Text, key: seq<byte>)

  datatype Envelope = Envelope(secretSealed: seq<byte>, dekSealed: seq<byte>, kekId: Text)

  /** `dek:` and the context: where a data key is sealed. */
  function DekContext(aad: Text): Text {
    [0x64, 0x65, 0x6B, 0x3A] + aad
  }

  /** Its secret was sealed before the format authenticated its version. */
  predicate Legacy(e: Envelope) {
    |e.secretSealed| > 0 && e.secretSealed[0] == SEAL_V1
  }

  /** What `sealSecret` draws at random. */
  datatype Random = Random(dek: seq<byte>, secretIv: seq<byte>, dekIv: seq<byte>) {
    predicate Sized() {
      |dek| == 32 && |secretIv| == IV_BYTES && |dekIv| == IV_BYTES
    }
  }

  function SealSecret(a: Aead, kek: Kek, secret: seq<byte>, aad: Text, random: Random): Envelope {
    Envelope(Seal(a, random.dek, secret, aad, random.secretIv),
             Seal(a, kek.key, random.dek, DekContext(aad), random.dekIv), kek.id)
  }

  function OpenSecret(a: Aead, kek: Kek, envelope: Envelope, aad: Text): Result<seq<byte>, SealError> {
    if envelope.kekId != kek.id then Err(WrongKey)
    else
      var dek :- Open(a, kek.key, envelope.dekSealed, DekContext(aad));
      Open(a, dek, envelope.secretSealed, aad)
  }

  function Rewrap(
    a: Aead, oldKek: Kek, newKek: Kek, envelope: Envelope, aad: Text, iv: seq<byte>): Result<Envelope, SealError>
  {
    if envelope.kekId != oldKek.id then Err(WrongKey)
    else
      var dek :- Open(a, oldKek.key, envelope.dekSealed, DekContext(aad));
      Ok(Envelope(envelope.secretSealed, Seal(a, newKek.key, dek, DekContext(aad), iv), newKek.id))
  }

  lemma SecretRoundTrip(a: Aead, kek: Kek, secret: seq<byte>, aad: Text, random: Random)
    requires a.Lawful() && random.Sized()
    ensures OpenSecret(a, kek, SealSecret(a, kek, secret, aad, random), aad) == Ok(secret)
  {
    SealOpens(a, kek.key, random.dek, DekContext(aad), random.dekIv);
    SealOpens(a, random.dek, secret, aad, random.secretIv);
  }

  /**
   * Rotation keeps the meaning: the new envelope opens under the new key as the old one did under
   * the old, the secret's own bytes untouched; it is refused exactly when the old key does not open
   * the data key.
   */
  lemma RewrapKeeps(a: Aead, oldKek: Kek, newKek: Kek, envelope: Envelope, aad: Text, iv: seq<byte>)
    requires a.Lawful() && |iv| == IV_BYTES
    ensures var r := Rewrap(a, oldKek, newKek, envelope, aad, iv);
            r.Ok? <==> envelope.kekId == oldKek.id && Open(a, oldKek.key, envelope.dekSealed, DekContext(aad)).Ok?
    ensures var r := Rewrap(a, oldKek, newKek, envelope, aad, iv);
            r.Ok? ==>
              && r.value.secretSealed == envelope.secretSealed && r.value.kekId == newKek.id
              && OpenSecret(a, newKek, r.value, aad) == OpenSecret(a, oldKek, envelope, aad)
  {
    hide a.Lawful;
    if envelope.kekId == oldKek.id && Open(a, oldKek.key, envelope.dekSealed, DekContext(aad)).Ok? {
      SealOpens(a, newKek.key, Open(a, oldKek.key, envelope.dekSealed, DekContext(aad)).value, DekContext(aad), iv);
    }
  }

  /** A sealed secret does not open in another of the contexts in use. */
  lemma OtherContextStaysShut(a: Aead, kek: Kek, envelope: Envelope, aad: Text, other: Text)
    requires a.Lawful()
    requires a.Binds({AadFor(SEAL_V1, DekContext(aad)), AadFor(SEAL_V2, DekContext(aad)),
                      AadFor(SEAL_V1, DekContext(other)), AadFor(SEAL_V2, DekContext(other))})
    requires OpenSecret(a, kek, envelope, aad).Ok? && aad != other
    ensures OpenSecret(a, kek, envelope, other) == Err(Unauthentic)
  {
    var dek := Open(a, kek.key, envelope.dekSealed, DekContext(aad)).value;
    OpensWhatWasSealed(a, kek.key, envelope.dekSealed, DekContext(aad), dek);
    var version, iv := envelope.dekSealed[0], envelope.dekSealed[1..1 + IV_BYTES];
    var mine, theirs := AadFor(version, DekContext(aad)), AadFor(version, DekContext(other));
    var c := a.encrypt(kek.key, iv, dek, mine);
    assert envelope.dekSealed[1 + IV_BYTES..HEADER_BYTES] == c.tag && envelope.dekSealed[HEADER_BYTES..] == c.text;
    var n := if version == SEAL_V1 then 4 else 7;
    assert mine[n..] == aad && theirs[n..] == other;
    assert a.decrypt(kek.key, iv, c, theirs) == None;
  }
}
