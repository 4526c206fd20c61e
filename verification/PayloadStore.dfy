/** `FileStorageDriver` of agent-durable/src/scadbuddy_durable/payload_store.py, and the whole way of a payload. */
module PayloadStore {
  import opened Wrappers
  import opened Bytes
  import opened Json
  import opened Secrets
  import opened Subjects
  import opened PayloadCodec

  /** `<subject>/<digest>` under the payload directory. */
  datatype Path = Path(subject: Text, digest: Text)

  type Claim = Path

  /** `_SESSION.match`. */
  predicate IsSession(s: Text) {
    SESSION <= Body(s) && Uuid(Body(s)[|SESSION|..])
  }

  /** `_DIGEST.match`. */
  predicate IsDigest(s: Text) {
    |Body(s)| == 64 && AllHex(Body(s))
  }

  /** `stored_subject`: the session a sealed payload belongs to. */
  function StoredSubject(p: Payload): Option<Text> {
    match SealedSubject(p)
    case Some(subject) => if IsSession(subject) then Some(subject) else None
    case None => None
  }

  function PathOf(w: World, p: Payload): Path
    requires StoredSubject(p).Some?
  {
    Path(StoredSubject(p).value, w.sha256(p.data))
  }

  /** The sessions are the subjects that say so. */
  lemma SessionIff(s: Text)
    ensures IsSession(s) <==> IsSubject(s) && Ascii("session-") <= s
  {
    hide Uuid;
    if FLOW <= Body(s) {
      FlowIsNoSession(s);
    }
  }

  /** What a claim gives back: the bytes, under the subject's metadata. */
  function Restored(path: Path, data: seq<byte>): Payload {
    Payload(SealedMetadata(path.subject), data)
  }

  function Retrieved(files: map<Path, seq<byte>>, claim: Claim): Result<Payload, Failure> {
    if !IsSession(claim.subject) || !IsDigest(claim.digest) then Err(BadReference)
    else if claim !in files then Err(Forgotten)
    else Ok(Restored(claim, files[claim]))
  }

  /** Sixty-four hex digits, and a newline after them or not. */
  ghost predicate Digested(digest: Text) {
    exists text: Text ::
      && |text| == 64 && (forall u :: u in text ==> u in Ascii("0123456789abcdef"))
      && (digest == text || digest == text + [0x0A])
  }

  lemma DigestIff(digest: Text)
    ensures IsDigest(digest) <==> Digested(digest)
  {
    hide HexDigit, Ascii;
    forall u: Unit
      ensures HexDigit(u) <==> u in Ascii("0123456789abcdef")
    {
      HexDigitsAre(u);
    }
    if IsDigest(digest) {
      var text := Body(digest);
      assert digest == text || digest == text + [0x0A];
    }
    forall text: Text | |text| == 64 && AllHex(text) && (digest == text || digest == text + [0x0A])
      ensures Body(digest) == text
    {
      assert text[63] in text;
      HexNoNewline(text[63]);
    }
  }

  lemma HexNoNewline(u: Unit)
    requires HexDigit(u)
    ensures u != NEWLINE
  {
  }

  /**
   * What a claim gets: its file where it names a session and a digest and the file is there, forgotten where
   * it is not; refused where it names anything else, so no claim reads a file of another directory.
   */
  lemma RetrievedIs(files: map<Path, seq<byte>>, claim: Claim)
    ensures var named := IsSubject(claim.subject) && Ascii("session-") <= claim.subject && Digested(claim.digest);
            && (!named <==> Retrieved(files, claim) == Err(BadReference))
            && (named && claim !in files <==> Retrieved(files, claim) == Err(Forgotten))
            && (named && claim in files ==>
              Retrieved(files, claim) == Ok(Payload(SealedMetadata(claim.subject), files[claim])))
  {
    hide IsSession, IsDigest, Digested;
    SessionIff(claim.subject);
    DigestIff(claim.digest);
  }

  function RetrievedAll(files: map<Path, seq<byte>>, claims: seq<Claim>): Result<seq<Payload>, Failure> {
    if claims == [] then Ok([])
    else
      var rest :- RetrievedAll(files, claims[..|claims| - 1]);
      var last :- Retrieved(files, claims[|claims| - 1]);
      Ok(rest + [last])
  }

  /** No two of these contents share a digest. */
  ghost predicate Apart(w: World, contents: set<seq<byte>>) {
    forall a, b :: a in contents && b in contents && w.sha256(a) == w.sha256(b) ==> a == b
  }

  class FileStorageDriver {
    const w: World
    var files: map<Path, seq<byte>>

    /** Each file is named by its own digest. */
    ghost predicate Valid()
      reads this
    {
      forall path :: path in files ==> w.sha256(files[path]) == path.digest
    }

    constructor (w: World)
      ensures Valid() && files == map[] && this.w == w
    {
      this.w := w;
      files := map[];
    }

    /** `_write`: once per digest. */
    method Write(path: Path, data: seq<byte>)
      requires Valid() && path.digest == w.sha256(data)
      modifies this
      ensures Valid()
      ensures files == if path in old(files) then old(files) else old(files)[path := data]
    {
      if path in files {
        return;
      }
      files := files[path := data];
    }

    /** The claims of the payloads, each now a file; a payload this store does not keep is refused. */
    method Store(ps: seq<Payload>) returns (r: Result<seq<Claim>, Failure>)
      requires Valid()
      modifies this
      ensures Valid()
      ensures r.Ok? <==> forall p :: p in ps ==> StoredSubject(p).Some?
      ensures r.Ok? ==> r.value == Claims(w, ps)
      ensures r.Ok? ==> files.Keys == old(files).Keys + Paths(w, ps)
      ensures files.Values <= old(files).Values + Datas(ps)
      ensures forall path :: path in old(files) ==> path in files && files[path] == old(files)[path]
    {
      hide StoredSubject, PathOf;
      ghost var was := files;
      var claims: seq<Claim> := [];
      assert Paths(w, ps[..0]) == {};
      hide Paths;
      for i := 0 to |ps|
        invariant Valid()
        invariant forall p :: p in ps[..i] ==> StoredSubject(p).Some?
        invariant claims == Claims(w, ps[..i])
        invariant files.Keys == was.Keys + Paths(w, ps[..i])
        invariant files.Values <= was.Values + Datas(ps)
        invariant forall path :: path in was ==> path in files && files[path] == was[path]
      {
        var subject := StoredSubject(ps[i]);
        if subject.None? {
          assert ps[i] in ps;
          return Err(NotStored);
        }
        var digest := w.sha256(ps[i].data);
        ghost var longer := ps[..i + 1];
        assert longer == ps[..i] + [ps[i]];
        PathIs(w, ps[i]);
        Write(Path(subject.value, digest), ps[i].data);
        claims := claims + [Path(subject.value, digest)];
        PathsSnoc(w, ps[..i], ps[i]);
      }
      assert ps[..|ps|] == ps;
      r := Ok(claims);
    }

    method Retrieve(claims: seq<Claim>) returns (r: Result<seq<Payload>, Failure>)
      ensures r == RetrievedAll(files, claims)
    {
      hide Retrieved;
      var out := [];
      for i := 0 to |claims|
        invariant RetrievedAll(files, claims[..i]) == Ok(out)
      {
        RetrievedSnoc(files, claims, i);
        var one := Retrieved(files, claims[i]);
        if one.Err? {
          RetrievedStops(files, claims, i);
          return Err(one.error);
        }
        out := out + [one.value];
      }
      assert claims[..|claims|] == claims;
      r := Ok(out);
    }

    /** forgetSubject's removal of the subject's directory. */
    method Forget(subject: Text)
      requires Valid()
      modifies this
      ensures Valid()
      ensures files == map path | path in old(files) && path.subject != subject :: old(files)[path]
    {
      files := map path | path in files && path.subject != subject :: files[path];
    }
  }

  /* ---- claims ---- */

  lemma PathIs(w: World, p: Payload)
    requires StoredSubject(p).Some?
    ensures PathOf(w, p) == Path(StoredSubject(p).value, w.sha256(p.data))
  {
  }

  function Claims(w: World, ps: seq<Payload>): (r: seq<Claim>)
    requires forall p :: p in ps ==> StoredSubject(p).Some?
    ensures |r| == |ps|
  {
    seq(|ps|, i requires 0 <= i < |ps| => assert ps[i] in ps; PathOf(w, ps[i]))
  }

  function Datas(ps: seq<Payload>): set<seq<byte>> {
    set p | p in ps :: p.data
  }

  function Paths(w: World, ps: seq<Payload>): set<Path>
    requires forall p :: p in ps ==> StoredSubject(p).Some?
  {
    set p | p in ps :: PathOf(w, p)
  }

  lemma PathsSnoc(w: World, ps: seq<Payload>, p: Payload)
    requires forall q :: q in ps + [p] ==> StoredSubject(q).Some?
    requires forall q :: q in ps ==> StoredSubject(q).Some?
    ensures Paths(w, ps + [p]) == Paths(w, ps) + {PathOf(w, p)}
  {
  }

  /** Where no digest is shared, a file holds the very bytes stored under its name. */
  lemma OwnBytes(w: World, files: map<Path, seq<byte>>, ps: seq<Payload>)
    requires forall path :: path in files ==> w.sha256(files[path]) == path.digest
    requires forall p :: p in ps ==> StoredSubject(p).Some? && PathOf(w, p) in files
    requires Apart(w, files.Values + Datas(ps))
    ensures forall p :: p in ps ==> files[PathOf(w, p)] == p.data
  {
    hide StoredSubject;
    forall p | p in ps
      ensures files[PathOf(w, p)] == p.data
    {
      assert files[PathOf(w, p)] in files.Values && p.data in Datas(ps);
    }
  }

  lemma RetrievedSnoc(files: map<Path, seq<byte>>, claims: seq<Claim>, i: nat)
    requires i < |claims| && RetrievedAll(files, claims[..i]).Ok?
    ensures RetrievedAll(files, claims[..i + 1])
         == match Retrieved(files, claims[i])
            case Ok(p) => Ok(RetrievedAll(files, claims[..i]).value + [p])
            case Err(e) => Err(e)
  {
    assert claims[..i + 1][..i] == claims[..i];
  }

  lemma {:induction false} RetrievedStops(files: map<Path, seq<byte>>, claims: seq<Claim>, i: nat)
    requires i < |claims| && RetrievedAll(files, claims[..i + 1]).Err?
    ensures RetrievedAll(files, claims) == RetrievedAll(files, claims[..i + 1])
    decreases |claims|
  {
    if i + 1 == |claims| {
      assert claims[..i + 1] == claims;
    } else {
      var shorter := claims[..|claims| - 1];
      assert shorter[..i + 1] == claims[..i + 1];
      RetrievedStops(files, shorter, i);
    }
  }

  lemma {:induction false} RetrievedEach(files: map<Path, seq<byte>>, claims: seq<Claim>, ps: seq<Payload>)
    requires |claims| == |ps|
    requires forall i :: 0 <= i < |claims| ==> Retrieved(files, claims[i]) == Ok(ps[i])
    ensures RetrievedAll(files, claims) == Ok(ps)
  {
    hide Retrieved;
    if claims == [] {
      assert ps == [];
    } else {
      var n := |claims| - 1;
      RetrievedEach(files, claims[..n], ps[..n]);
      assert ps == ps[..n] + [ps[n]];
    }
  }

  /* ---- the pipeline ---- */

  /** Of the large ones, those of a session are stored; the others stay in history. */
  predicate Stores(p: Payload, large: bool) {
    large && StoredSubject(p).Some?
  }

  function Chosen(ps: seq<Payload>, large: seq<bool>): (r: seq<Payload>)
    requires |large| == |ps|
    ensures forall p :: p in r ==> p in ps && StoredSubject(p).Some?
    decreases |ps|
  {
    if ps == [] then []
    else
      var n := |ps| - 1;
      Chosen(ps[..n], large[..n]) + if Stores(ps[n], large[n]) then [ps[n]] else []
  }

  /** What comes back of a payload: the same bytes, under the metadata of its subject. */
  function Back(p: Payload): Payload {
    if StoredSubject(p).Some? then Payload(SealedMetadata(StoredSubject(p).value), p.data) else p
  }

  function Loaded(ps: seq<Payload>, large: seq<bool>): seq<Payload>
    requires |large| == |ps|
  {
    seq(|ps|, i requires 0 <= i < |ps| => if Stores(ps[i], large[i]) then Back(ps[i]) else ps[i])
  }

  lemma DigestOk(w: World, bytes: seq<byte>)
    requires w.Lawful()
    ensures IsDigest(w.sha256(bytes))
  {
    var d := w.sha256(bytes);
    assert d[63] in d;
  }

  /** A stored payload opens as it would have inline. */
  lemma BackDecodes(w: World, p: Payload)
    ensures DecodedOne(w, Back(p)) == DecodedOne(w, p)
  {
    hide IsSubject, IsSession;
    if StoredSubject(p).Some? {
      KeysDiffer();
      assert SealedSubject(Back(p)) == SealedSubject(p);
    }
  }

  lemma {:induction false} DecodedSame(w: World, ps: seq<Payload>, qs: seq<Payload>)
    requires |ps| == |qs| && forall i :: 0 <= i < |ps| ==> DecodedOne(w, ps[i]) == DecodedOne(w, qs[i])
    ensures Decoded(w, ps) == Decoded(w, qs)
    decreases |ps|
  {
    hide DecodedOne;
    if ps == [] {
      assert qs == [];
    } else {
      var n := |ps| - 1;
      DecodedSame(w, ps[..n], qs[..n]);
    }
  }

  lemma RetrievesOwn(w: World, files: map<Path, seq<byte>>, ps: seq<Payload>)
    requires w.Lawful()
    requires forall p :: p in ps ==> StoredSubject(p).Some? && PathOf(w, p) in files && files[PathOf(w, p)] == p.data
    ensures RetrievedAll(files, Claims(w, ps)) == Ok(seq(|ps|, i requires 0 <= i < |ps| => Back(ps[i])))
  {
    hide w.Lawful, SealedMetadata;
    var back := seq(|ps|, i requires 0 <= i < |ps| => Back(ps[i]));
    forall i | 0 <= i < |ps|
      ensures Retrieved(files, Claims(w, ps)[i]) == Ok(back[i])
    {
      assert ps[i] in ps;
      DigestOk(w, ps[i].data);
    }
    RetrievedEach(files, Claims(w, ps), back);
  }

  lemma PathsHold(w: World, ps: seq<Payload>, paths: set<Path>)
    requires forall p :: p in ps ==> StoredSubject(p).Some?
    requires Paths(w, ps) <= paths
    ensures forall p :: p in ps ==> PathOf(w, p) in paths
  {
    hide StoredSubject, PathOf;
    forall p | p in ps
      ensures PathOf(w, p) in paths
    {
      assert PathOf(w, p) in Paths(w, ps);
    }
  }

  lemma ApartWithin(w: World, contents: set<seq<byte>>, fewer: set<seq<byte>>)
    requires Apart(w, contents) && fewer <= contents
    ensures Apart(w, fewer)
  {
  }

  /** What is stored is retrieved, each payload with its bytes and its subject, in order. */
  method StoredComesBack(driver: FileStorageDriver, ps: seq<Payload>) returns (r: Result<seq<Payload>, Failure>)
    requires driver.Valid() && driver.w.Lawful()
    requires Apart(driver.w, driver.files.Values + Datas(ps))
    modifies driver
    ensures driver.Valid()
    ensures if forall p :: p in ps ==> StoredSubject(p).Some?
            then r == Ok(seq(|ps|, i requires 0 <= i < |ps| => Back(ps[i])))
            else r == Err(NotStored)
  {
    hide StoredSubject, PathOf, RetrievedAll, Back, Apart, Paths, driver.w.Lawful;
    ghost var contents := driver.files.Values + Datas(ps);
    var claims := driver.Store(ps);
    if claims.Err? {
      return Err(NotStored);
    }
    PathsHold(driver.w, ps, driver.files.Keys);
    ApartWithin(driver.w, contents, driver.files.Values + Datas(ps));
    OwnBytes(driver.w, driver.files, ps);
    RetrievesOwn(driver.w, driver.files, ps);
    r := driver.Retrieve(claims.value);
  }

  lemma {:induction false} ChosenAt(ps: seq<Payload>, large: seq<bool>, i: nat)
    requires |large| == |ps| && i < |ps|
    ensures |Chosen(ps[..i + 1], large[..i + 1])|
         == |Chosen(ps[..i], large[..i])| + if Stores(ps[i], large[i]) then 1 else 0
    ensures Stores(ps[i], large[i]) ==>
              && |Chosen(ps[..i], large[..i])| < |Chosen(ps, large)|
              && Chosen(ps, large)[|Chosen(ps[..i], large[..i])|] == ps[i]
    decreases |ps|
  {
    hide Stores;
    var n := |ps| - 1;
    if i == n {
      assert ps[..i + 1] == ps && large[..i + 1] == large;
    } else {
      ChosenAt(ps[..n], large[..n], i);
      assert ps[..n][..i] == ps[..i] && large[..n][..i] == large[..i];
      assert ps[..n][..i + 1] == ps[..i + 1] && large[..n][..i + 1] == large[..i + 1];
    }
  }

  /** The ones that come back, put where they were sent from. */
  method Merge(ps: seq<Payload>, large: seq<bool>, back: seq<Payload>) returns (loaded: seq<Payload>)
    requires |large| == |ps| && |back| == |Chosen(ps, large)|
    requires forall i :: 0 <= i < |back| ==> back[i] == Back(Chosen(ps, large)[i])
    ensures loaded == Loaded(ps, large)
  {
    hide Stores, Back;
    loaded := [];
    var next := 0;
    for i := 0 to |ps|
      invariant loaded == Loaded(ps[..i], large[..i]) && next == |Chosen(ps[..i], large[..i])|
    {
      ChosenAt(ps, large, i);
      assert ps[..i + 1][..i] == ps[..i] && large[..i + 1][..i] == large[..i];
      if Stores(ps[i], large[i]) {
        loaded := loaded + [back[next]];
        next := next + 1;
      } else {
        loaded := loaded + [ps[i]];
      }
    }
    assert ps[..|ps|] == ps && large[..|ps|] == large;
  }

  /** Temporal's external storage: the chosen payloads go through the driver, the others stay. */
  method SentAndLoaded(driver: FileStorageDriver, ps: seq<Payload>, large: seq<bool>)
    returns (loaded: seq<Payload>)
    requires driver.Valid() && driver.w.Lawful() && |large| == |ps|
    requires Apart(driver.w, driver.files.Values + Datas(ps))
    modifies driver
    ensures driver.Valid() && loaded == Loaded(ps, large)
  {
    hide Stores, Back, Apart, driver.w.Lawful;
    assert Datas(Chosen(ps, large)) <= Datas(ps);
    ApartWithin(driver.w, driver.files.Values + Datas(ps), driver.files.Values + Datas(Chosen(ps, large)));
    var back := StoredComesBack(driver, Chosen(ps, large));
    loaded := Merge(ps, large, back.value);
  }

  /** What history and the share hold of some payloads: sealed for a subject, as they are without one. */
  function Sealing(w: World, subject: Option<Text>, ps: seq<Payload>, ivs: seq<seq<byte>>): (r: seq<Payload>)
    requires |ivs| == |ps|
    ensures |r| == |ps|
  {
    if subject.None? || w.key(subject.value).None? then ps
    else Encoded(w, subject.value, w.key(subject.value).value, ps, ivs)
  }

  /**
   * Encode, store, retrieve, decode: what comes back is what the payloads open to, the plain ones
   * themselves, for any workflow and any choice of those large enough to store.
   */
  method PipelineRoundTrip(
    codec: SubjectPayloadCodec, driver: FileStorageDriver, ps: seq<Payload>, ivs: seq<seq<byte>>, large: seq<bool>)
    returns (r: Result<seq<Payload>, Failure>)
    requires driver.Valid() && codec.w == driver.w && codec.w.Lawful()
    requires codec.subject.Some? ==> IsSubject(codec.subject.value)
    requires |ivs| == |ps| == |large| && forall i :: 0 <= i < |ivs| ==> |ivs[i]| == IV_BYTES
    requires Apart(driver.w, driver.files.Values + Datas(Sealing(codec.w, codec.subject, ps, ivs)))
    modifies driver
    ensures driver.Valid()
    ensures if codec.subject.Some? && codec.w.key(codec.subject.value).None?
            then r == Err(Forgotten) && driver.files == old(driver.files)
            else r == Decoded(codec.w, ps)
    ensures r.Ok? && (forall p :: p in ps ==> SealedSubject(p).None?) ==> r == Ok(ps)
  {
    hide codec.w.Lawful, IsSubject, Apart, Loaded, Decoded, EncodedOne;
    var encoded := codec.Encode(ps, ivs);
    if encoded.Err? {
      return Err(Forgotten);
    }
    var loaded := SentAndLoaded(driver, encoded.value, large);
    LoadedDecodes(codec.w, codec.subject, ps, ivs, large);
    PlainDecode(codec.w, ps);
    r := codec.Decode(loaded);
  }

  lemma LoadedDecodes(
    w: World, subject: Option<Text>, ps: seq<Payload>, ivs: seq<seq<byte>>, large: seq<bool>)
    requires w.Lawful() && (subject.Some? ==> IsSubject(subject.value))
    requires |ivs| == |ps| == |large| && forall i :: 0 <= i < |ivs| ==> |ivs[i]| == IV_BYTES
    ensures Decoded(w, Loaded(Sealing(w, subject, ps, ivs), large)) == Decoded(w, ps)
  {
    hide w.Lawful, IsSubject, DecodedOne, EncodedOne, Back, Stores, Decoded;
    var encoded := Sealing(w, subject, ps, ivs);
    var loaded := Loaded(encoded, large);
    forall i | 0 <= i < |ps|
      ensures DecodedOne(w, loaded[i]) == DecodedOne(w, ps[i])
    {
      BackDecodes(w, encoded[i]);
      if subject.Some? && w.key(subject.value).Some? {
        EncodedDecodes(w, subject.value, ps[i], ivs[i]);
        PlainDecodes(w, ps[i]);
      }
    }
    DecodedSame(w, loaded, ps);
  }

  lemma PlainDecodes(w: World, p: Payload)
    ensures SealedSubject(p).None? ==> DecodedOne(w, p) == Ok(p)
  {
  }

  lemma PlainDecode(w: World, ps: seq<Payload>)
    ensures (forall p :: p in ps ==> SealedSubject(p).None?) ==> Decoded(w, ps) == Ok(ps)
  {
    if forall p :: p in ps ==> SealedSubject(p).None? {
      DecodedAll(w, ps, ps);
    }
  }

  /** Once a subject's directory is removed, its claims are answered as forgotten, and others as before. */
  lemma ForgottenClaims(files: map<Path, seq<byte>>, subject: Text, claim: Claim)
    requires IsSession(claim.subject) && IsDigest(claim.digest)
    ensures var left := map path | path in files && path.subject != subject :: files[path];
            Retrieved(left, claim) == if claim.subject == subject then Err(Forgotten) else Retrieved(files, claim)
  {
  }

  /** Encoding twice is encoding once. */
  lemma EncodeIdempotent(w: World, subject: Text, ps: seq<Payload>, ivs: seq<seq<byte>>, again: seq<seq<byte>>)
    requires w.Lawful() && IsSubject(subject) && w.key(subject).Some?
    requires |ivs| == |ps| == |again| && forall i :: 0 <= i < |ivs| ==> |ivs[i]| == IV_BYTES
    ensures var once := Encoded(w, subject, w.key(subject).value, ps, ivs);
            Encoded(w, subject, w.key(subject).value, once, again) == once
  {
  }

  /** Sealed twice, a session's large payload is the same bytes. */
  method SealTwice(codec: SubjectPayloadCodec, p: Payload, iv: seq<byte>, iv2: seq<byte>)
    returns (e: Payload, e2: Payload)
    requires codec.subject.Some? && IsSession(codec.subject.value) && codec.w.key(codec.subject.value).Some?
    requires SealedSubject(p).None? && |codec.w.write(p)| >= DEDUP_BYTES
    ensures e == e2 && StoredSubject(e) == codec.subject
  {
    hide Seal, DedupIv, IsSession;
    var first := codec.Encode([p], [iv]);
    var second := codec.Encode([p], [iv2]);
    KeysDiffer();
    LargeSealsTheSame(codec.w, codec.subject.value, codec.w.key(codec.subject.value).value, p, iv, iv2);
    e, e2 := first.value[0], second.value[0];
  }

  /** A session's large payload, sealed anew each time and stored twice, adds one file at most. */
  method LargeIsOneFile(
    codec: SubjectPayloadCodec, driver: FileStorageDriver, p: Payload, iv: seq<byte>, iv2: seq<byte>)
    returns (first: Result<seq<Claim>, Failure>, second: Result<seq<Claim>, Failure>)
    requires driver.Valid() && codec.w == driver.w
    requires codec.subject.Some? && IsSession(codec.subject.value) && codec.w.key(codec.subject.value).Some?
    requires SealedSubject(p).None? && |codec.w.write(p)| >= DEDUP_BYTES
    modifies driver
    ensures driver.Valid()
    ensures first.Ok? && second == first && |first.value| == 1
    ensures driver.files.Keys == old(driver.files).Keys + {first.value[0]}
    ensures forall path :: path in old(driver.files) ==> driver.files[path] == old(driver.files)[path]
  {
    hide StoredSubject, PathOf, IsSession;
    var e, e2 := SealTwice(codec, p, iv, iv2);
    first := driver.Store([e]);
    second := driver.Store([e2]);
    assert Paths(driver.w, [e]) == {first.value[0]};
  }
}
