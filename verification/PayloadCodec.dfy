/** Payloads sealed per subject: `SubjectPayloadCodec` of agent-durable/src/scadbuddy_durable/codec.py. */
module PayloadCodec {
  import opened Wrappers
  import opened Bytes
  import opened Json
  import opened Secrets
  import opened Subjects

  const DEDUP_BYTES := 16_384
  const ENCODING: Text := Ascii("encoding")
  const SUBJECT_ENCODING: Text := Ascii("binary/scadbuddy-subject")
  const SUBJECT_METADATA: Text := Ascii("scadbuddy-subject")

  datatype Payload = Payload(metadata: map<Text, Text>, data: seq<byte>)

  datatype Failure = Forgotten | Unsealed(error: SealError) | NoSubject | NotStored | BadReference

  /**
   * What the codec calls: GCM, the payload as sorted JSON and back, HMAC-SHA256, SHA-256 in hex, and the
   * key of each subject. A metadata value is kept as its text.
   */
  datatype World = World(
    aead: Aead,
    write: Payload -> seq<byte>, read: seq<byte> -> Payload,
    hmac: (seq<byte>, Text) -> seq<byte>, hmacBytes: (seq<byte>, seq<byte>) -> seq<byte>,
    sha256: seq<byte> -> Text,
    key: Text -> Option<seq<byte>>)
  {
    ghost predicate Lawful() {
      && aead.Lawful()
      && (forall p :: read(write(p)) == p)
      && (forall k, b :: |hmacBytes(k, b)| == 32)
      && (forall b :: |sha256(b)| == 64 && AllHex(sha256(b)))
    }
  }

  /* ---- sealing ---- */

  function PayloadContext(subject: Text): Text {
    Ascii("payload:") + subject
  }

  /** `dedup_iv`. */
  function DedupIv(w: World, dek: seq<byte>, subject: Text, plain: seq<byte>): seq<byte> {
    var digest := w.hmacBytes(w.hmac(dek, Ascii("payload-iv:") + subject), plain);
    if |digest| < IV_BYTES then digest else digest[..IV_BYTES]
  }

  function SealedMetadata(subject: Text): map<Text, Text> {
    map[ENCODING := SUBJECT_ENCODING, SUBJECT_METADATA := subject]
  }

  function SealPayload(w: World, dek: seq<byte>, subject: Text, p: Payload, iv: seq<byte>): Payload {
    Payload(SealedMetadata(subject), Seal(w.aead, dek, w.write(p), PayloadContext(subject), iv))
  }

  function SealedSubject(p: Payload): Option<Text> {
    if ENCODING !in p.metadata || p.metadata[ENCODING] != SUBJECT_ENCODING then None
    else if SUBJECT_METADATA in p.metadata then Some(p.metadata[SUBJECT_METADATA])
    else Some([])
  }

  function OpenPayload(w: World, dek: seq<byte>, subject: Text, p: Payload): Result<Payload, Failure> {
    match Open(w.aead, dek, p.data, PayloadContext(subject))
    case Ok(plain) => Ok(w.read(plain))
    case Err(e) => Err(Unsealed(e))
  }

  /* ---- one payload ---- */

  /** A payload encoded: `iv` is what is drawn for one too small for a synthetic IV. */
  function EncodedOne(w: World, subject: Text, key: seq<byte>, p: Payload, iv: seq<byte>): Payload {
    if SealedSubject(p).Some? then p
    else
      var plain := w.write(p);
      SealPayload(w, key, subject, p, if |plain| >= DEDUP_BYTES then DedupIv(w, key, subject, plain) else iv)
  }

  function DecodedOne(w: World, p: Payload): Result<Payload, Failure> {
    match SealedSubject(p)
    case None => Ok(p)
    case Some(subject) =>
      if !IsSubject(subject) then Err(NoSubject)
      else if w.key(subject).None? then Err(Forgotten)
      else OpenPayload(w, w.key(subject).value, subject, p)
  }

  /** Encoding is undone by decoding, whatever was sealed before. */
  lemma EncodedDecodes(w: World, subject: Text, p: Payload, iv: seq<byte>)
    requires w.Lawful() && IsSubject(subject) && w.key(subject).Some? && |iv| == IV_BYTES
    ensures var e := EncodedOne(w, subject, w.key(subject).value, p, iv);
            && SealedSubject(e).Some?
            && DecodedOne(w, e) == (if SealedSubject(p).Some? then DecodedOne(w, p) else Ok(p))
            && (forall iv2 :: EncodedOne(w, subject, w.key(subject).value, e, iv2) == e)
  {
    hide w.aead.Lawful, IsSubject;
    if SealedSubject(p).None? {
      var key, plain := w.key(subject).value, w.write(p);
      var used := if |plain| >= DEDUP_BYTES then DedupIv(w, key, subject, plain) else iv;
      KeysDiffer();
      SealOpens(w.aead, key, plain, PayloadContext(subject), used);
    }
  }

  /** What marks a payload as sealed, and for whom. */
  ghost predicate Marked(p: Payload, subject: Text) {
    && Ascii("encoding") in p.metadata && p.metadata[Ascii("encoding")] == Ascii("binary/scadbuddy-subject")
    && var key := Ascii("scadbuddy-subject");
       subject == if key in p.metadata then p.metadata[key] else []
  }

  /** A payload not marked decodes to itself, and is sealed and marked when encoded. */
  lemma SealedIff(w: World, p: Payload, subject: Text, key: seq<byte>, iv: seq<byte>)
    ensures SealedSubject(p) == Some(subject) <==> Marked(p, subject)
    ensures (forall other :: !Marked(p, other)) ==>
              && DecodedOne(w, p) == Ok(p)
              && EncodedOne(w, subject, key, p, iv).metadata
                 == map[Ascii("encoding") := Ascii("binary/scadbuddy-subject"), Ascii("scadbuddy-subject") := subject]
  {
    hide Ascii;
    if SealedSubject(p).Some? {
      assert Marked(p, SealedSubject(p).value);
    }
  }

  /** A marked payload is refused for a subject that is none, and forgotten exactly when its key is gone. */
  lemma DecodeErrors(w: World, p: Payload, subject: Text)
    requires Marked(p, subject)
    ensures DecodedOne(w, p) == Err(NoSubject) <==> !IsSubject(subject)
    ensures DecodedOne(w, p) == Err(Forgotten) <==> IsSubject(subject) && w.key(subject).None?
    ensures IsSubject(subject) && w.key(subject).Some? ==>
              DecodedOne(w, p) == match Open(w.aead, w.key(subject).value, p.data, Ascii("payload:") + subject)
                                  case Ok(plain) => Ok(w.read(plain))
                                  case Err(e) => Err(Unsealed(e))
  {
    SealedIff(w, p, subject, [], []);
    hide IsSubject, Open, Ascii;
  }

  lemma KeysDiffer()
    ensures ENCODING != SUBJECT_METADATA
    ensures forall subject :: SealedSubject(Payload(SealedMetadata(subject), [])) == Some(subject)
  {
  }

  /** Equal large payloads of a subject seal to equal bytes, whatever is drawn. */
  lemma LargeSealsTheSame(w: World, subject: Text, key: seq<byte>, p: Payload, iv: seq<byte>, iv2: seq<byte>)
    requires |w.write(p)| >= DEDUP_BYTES
    ensures EncodedOne(w, subject, key, p, iv) == EncodedOne(w, subject, key, p, iv2)
  {
  }

  /** The IV a payload was sealed with, as it stands in the sealed bytes. */
  function IvOf(p: Payload): seq<byte>
    requires |p.data| >= 13
  {
    p.data[1..13]
  }

  /** A payload that is sealed here, and is large. */
  predicate Deduplicated(w: World, p: Payload) {
    SealedSubject(p).None? && |w.write(p)| >= 16_384
  }

  /** The contents' HMACs under the key derived for the subject differ in their first twelve bytes. */
  ghost predicate IvsApart(w: World, dek: seq<byte>, subject: Text, contents: set<seq<byte>>) {
    var ivKey := w.hmac(dek, Ascii("payload-iv:") + subject);
    forall a, b :: a in contents && b in contents && a != b ==>
      |w.hmacBytes(ivKey, a)| >= 12 && |w.hmacBytes(ivKey, b)| >= 12
      && w.hmacBytes(ivKey, a)[..12] != w.hmacBytes(ivKey, b)[..12]
  }

  /** A payload's IV: of a large one its HMAC's, of a small one the one drawn for it. */
  lemma SealedIv(w: World, subject: Text, key: seq<byte>, p: Payload, iv: seq<byte>)
    requires w.Lawful() && SealedSubject(p).None? && |iv| == 12
    ensures var e := EncodedOne(w, subject, key, p, iv);
            var hmac := w.hmacBytes(w.hmac(key, Ascii("payload-iv:") + subject), w.write(p));
            |hmac| >= 12 && |e.data| >= 13 && IvOf(e) == if Deduplicated(w, p) then hmac[..12] else iv
  {
    var used := if |w.write(p)| >= DEDUP_BYTES then DedupIv(w, key, subject, w.write(p)) else iv;
    var sealed := Seal(w.aead, key, w.write(p), PayloadContext(subject), used);
    assert sealed[1..13] == used;
  }

  /**
   * One IV is only ever used for one plaintext: of large payloads sealed for a subject, in however many
   * calls and whatever is drawn, two with one IV are the same.
   */
  lemma OneIvOnePlaintext(
    w: World, subject: Text, key: seq<byte>, p: Payload, q: Payload, iv: seq<byte>, iv2: seq<byte>,
    contents: set<seq<byte>>)
    requires w.Lawful() && Deduplicated(w, p) && Deduplicated(w, q) && |iv| == 12 && |iv2| == 12
    requires IvsApart(w, key, subject, contents) && w.write(p) in contents && w.write(q) in contents
    ensures var e, e2 := EncodedOne(w, subject, key, p, iv), EncodedOne(w, subject, key, q, iv2);
            |e.data| >= 13 && |e2.data| >= 13 && (IvOf(e) == IvOf(e2) <==> w.write(p) == w.write(q))
  {
    hide w.Lawful, EncodedOne;
    SealedIv(w, subject, key, p, iv);
    SealedIv(w, subject, key, q, iv2);
  }

  /* ---- the codec ---- */

  function Encoded(w: World, subject: Text, key: seq<byte>, ps: seq<Payload>, ivs: seq<seq<byte>>): (r: seq<Payload>)
    requires |ivs| == |ps|
    ensures |r| == |ps|
  {
    seq(|ps|, i requires 0 <= i < |ps| => EncodedOne(w, subject, key, ps[i], ivs[i]))
  }

  function Decoded(w: World, ps: seq<Payload>): Result<seq<Payload>, Failure> {
    if ps == [] then Ok([])
    else
      var rest :- Decoded(w, ps[..|ps| - 1]);
      var last :- DecodedOne(w, ps[|ps| - 1]);
      Ok(rest + [last])
  }

  class SubjectPayloadCodec {
    const w: World
    /** The subject of the workflow the payloads belong to; none for other workflows. */
    const subject: Option<Text>

    constructor (w: World, workflowId: Option<Text>)
      ensures this.w == w && subject == SubjectOf(workflowId)
      ensures subject.Some? ==> IsSubject(subject.value)
    {
      this.w := w;
      subject := SubjectOf(workflowId);
      if SubjectOf(workflowId).Some? {
        SubjectOfSubject(workflowId);
      }
    }

    method Encode(ps: seq<Payload>, ivs: seq<seq<byte>>) returns (r: Result<seq<Payload>, Failure>)
      requires |ivs| == |ps|
      ensures r == if subject.None? then Ok(ps)
                   else if w.key(subject.value).None? then Err(Forgotten)
                   else Ok(Encoded(w, subject.value, w.key(subject.value).value, ps, ivs))
    {
      if subject.None? {
        return Ok(ps);
      }
      var key := w.key(subject.value);
      if key.None? {
        return Err(Forgotten);
      }
      var out := [];
      for i := 0 to |ps|
        invariant out == Encoded(w, subject.value, key.value, ps[..i], ivs[..i])
      {
        var p := ps[i];
        if SealedSubject(p).Some? {
          out := out + [p];
        } else {
          var plain := w.write(p);
          var iv := if |plain| >= DEDUP_BYTES then DedupIv(w, key.value, subject.value, plain) else ivs[i];
          out := out + [SealPayload(w, key.value, subject.value, p, iv)];
        }
        assert out[i] == EncodedOne(w, subject.value, key.value, ps[i], ivs[i]);
      }
      assert ps[..|ps|] == ps && ivs[..|ps|] == ivs;
      r := Ok(out);
    }

    method Decode(ps: seq<Payload>) returns (r: Result<seq<Payload>, Failure>)
      ensures r == Decoded(w, ps)
    {
      hide DecodedOne;
      var out := [];
      for i := 0 to |ps|
        invariant Decoded(w, ps[..i]) == Ok(out)
      {
        DecodedSnoc(w, ps, i);
        var one := DecodedOne(w, ps[i]);
        if one.Err? {
          DecodedStops(w, ps, i);
          return Err(one.error);
        }
        out := out + [one.value];
      }
      assert ps[..|ps|] == ps;
      r := Ok(out);
    }
  }

  lemma DecodedSnoc(w: World, ps: seq<Payload>, i: nat)
    requires i < |ps| && Decoded(w, ps[..i]).Ok?
    ensures Decoded(w, ps[..i + 1])
         == match DecodedOne(w, ps[i]) case Ok(p) => Ok(Decoded(w, ps[..i]).value + [p]) case Err(e) => Err(e)
  {
    assert ps[..i + 1][..i] == ps[..i];
  }

  lemma {:induction false} DecodedStops(w: World, ps: seq<Payload>, i: nat)
    requires i < |ps| && Decoded(w, ps[..i + 1]).Err?
    ensures Decoded(w, ps) == Decoded(w, ps[..i + 1])
    decreases |ps|
  {
    if i + 1 == |ps| {
      assert ps[..i + 1] == ps;
    } else {
      var shorter := ps[..|ps| - 1];
      assert shorter[..i + 1] == ps[..i + 1];
      DecodedStops(w, shorter, i);
    }
  }

  lemma {:induction false} DecodedAll(w: World, ps: seq<Payload>, originals: seq<Payload>)
    requires |ps| == |originals|
    requires forall i :: 0 <= i < |ps| ==> DecodedOne(w, ps[i]) == Ok(originals[i])
    ensures Decoded(w, ps) == Ok(originals)
  {
    hide DecodedOne;
    if ps == [] {
      assert originals == [];
    } else {
      var n := |ps| - 1;
      DecodedAll(w, ps[..n], originals[..n]);
      assert originals == originals[..n] + [originals[n]];
    }
  }
}
