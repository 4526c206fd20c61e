/** The ZIP writer and reader of agent/evals/threemf.ts (APPNOTE.TXT section 4.3). */
module Zip {
  import opened Wrappers
  import opened Bytes

  const EOCD := 0x06054b50
  const CENTRAL := 0x02014b50
  const LOCAL := 0x04034b50

  /** What the archive code calls and does not define: UTF-8, DEFLATE and CRC-32. */
  datatype Codec = Codec(
    utf8: string -> seq<byte>,
    fromUtf8: seq<byte> -> string,
    deflate: seq<byte> -> seq<byte>,
    inflate: seq<byte> -> Option<seq<byte>>,
    crc32: seq<byte> -> int)
  {
    ghost predicate Lawful() {
      && (forall b :: inflate(deflate(b)) == Some(b))
      && (forall b :: 0 <= crc32(b) < 0x1_0000_0000)
    }
  }

  datatype File = File(name: string, content: seq<byte>)

  datatype ZipError = NotZip | BadCentral | BadLocal | BadMethod | BadDeflate | OutOfRange

  /* ---- the archive as bytes ---- */

  function Method(c: Codec, f: File): int {
    if |c.deflate(f.content)| < |f.content| then 8 else 0
  }

  function Data(c: Codec, f: File): seq<byte> {
    if Method(c, f) == 8 then c.deflate(f.content) else f.content
  }

  ghost predicate ContentFits(c: Codec, f: File) {
    && |f.content| < 0x1_0000_0000
    && |Data(c, f)| < 0x1_0000_0000
    && 0 <= c.crc32(f.content) < 0x1_0000_0000
  }

  /** Every field of `f`'s two headers fits, its local header being at `offset`. */
  ghost predicate FileFits(c: Codec, f: File, offset: nat) {
    && ContentFits(c, f)
    && |c.utf8(f.name)| < 0x1_0000
    && offset < 0x1_0000_0000
  }

  ghost function LocalTo14(c: Codec, f: File): (h: seq<byte>)
    ensures |h| == 14
  {
    LE32(LOCAL) + LE16(20) + Zeros(2) + LE16(Method(c, f)) + Zeros(4)
  }

  ghost function LocalTo26(c: Codec, f: File): (h: seq<byte>)
    requires ContentFits(c, f)
    ensures |h| == 26
  {
    LocalTo14(c, f) + LE32(c.crc32(f.content)) + LE32(|Data(c, f)|) + LE32(|f.content|)
  }

  /** Section 4.3.7: version 20, no flags, no time, no extra field. */
  ghost function LocalHeader(c: Codec, f: File): (h: seq<byte>)
    requires FileFits(c, f, 0)
    ensures |h| == 30
  {
    LocalTo26(c, f) + LE16(|c.utf8(f.name)|) + Zeros(2)
  }

  ghost function CentralTo16(c: Codec, f: File): (h: seq<byte>)
    ensures |h| == 16
  {
    LE32(CENTRAL) + LE16(20) + LE16(20) + Zeros(2) + LE16(Method(c, f)) + Zeros(4)
  }

  ghost function CentralTo28(c: Codec, f: File): (h: seq<byte>)
    requires ContentFits(c, f)
    ensures |h| == 28
  {
    CentralTo16(c, f) + LE32(c.crc32(f.content)) + LE32(|Data(c, f)|) + LE32(|f.content|)
  }

  /** Section 4.3.12: no extra field, comment, disk or attributes. */
  ghost function CentralHeader(c: Codec, f: File, offset: nat): (h: seq<byte>)
    requires FileFits(c, f, offset)
    ensures |h| == 46
  {
    CentralTo28(c, f) + LE16(|c.utf8(f.name)|) + Zeros(12) + LE32(offset)
  }

  /** Section 4.3.16. */
  ghost function EndRecord(count: nat, directory: nat, offset: nat): (h: seq<byte>)
    requires count < 0x1_0000 && directory < 0x1_0000_0000 && offset < 0x1_0000_0000
    ensures |h| == 22
  {
    LE32(EOCD) + Zeros(4) + LE16(count) + LE16(count) + LE32(directory) + LE32(offset) + Zeros(2)
  }

  ghost function LocalSize(c: Codec, f: File): nat {
    30 + |c.utf8(f.name)| + |Data(c, f)|
  }

  ghost function LocalBytes(c: Codec, f: File): (r: seq<byte>)
    requires FileFits(c, f, 0)
    ensures |r| == LocalSize(c, f)
  {
    LocalHeader(c, f) + c.utf8(f.name) + Data(c, f)
  }

  ghost function CentralBytes(c: Codec, f: File, offset: nat): (r: seq<byte>)
    requires FileFits(c, f, offset)
    ensures |r| == 46 + |c.utf8(f.name)|
  {
    CentralHeader(c, f, offset) + c.utf8(f.name)
  }

  ghost function LocalsSize(c: Codec, files: seq<File>): nat {
    if files == [] then 0 else LocalsSize(c, files[..|files| - 1]) + LocalSize(c, files[|files| - 1])
  }

  ghost function DirectorySize(c: Codec, files: seq<File>): nat {
    if files == [] then 0
    else DirectorySize(c, files[..|files| - 1]) + 46 + |c.utf8(files[|files| - 1].name)|
  }

  /** Every field of every local and central header fits. */
  ghost predicate FilesFit(c: Codec, files: seq<File>) {
    forall i :: 0 <= i < |files| ==> FitsAt(c, files, i)
  }

  ghost predicate FitsAt(c: Codec, files: seq<File>, i: nat)
    requires i < |files|
  {
    FileFits(c, files[i], LocalsSize(c, files[..i]))
  }

  /** Every field of the archive fits: exactly when the writer returns. */
  ghost predicate Fits(c: Codec, files: seq<File>) {
    && FilesFit(c, files)
    && |files| < 0x1_0000
    && DirectorySize(c, files) < 0x1_0000_0000
    && LocalsSize(c, files) < 0x1_0000_0000
  }

  ghost function Locals(c: Codec, files: seq<File>): (r: seq<byte>)
    requires FilesFit(c, files)
    ensures |r| == LocalsSize(c, files)
  {
    if files == [] then []
    else
      var n := |files| - 1;
      FitsPrefix(c, files, n);
      assert FitsAt(c, files, n);
      Locals(c, files[..n]) + LocalBytes(c, files[n])
  }

  ghost function Directory(c: Codec, files: seq<File>): (r: seq<byte>)
    requires FilesFit(c, files)
    ensures |r| == DirectorySize(c, files)
  {
    if files == [] then []
    else
      var n := |files| - 1;
      FitsPrefix(c, files, n);
      assert FitsAt(c, files, n);
      Directory(c, files[..n]) + CentralBytes(c, files[n], LocalsSize(c, files[..n]))
  }

  ghost function Archive(c: Codec, files: seq<File>): seq<byte>
    requires Fits(c, files)
  {
    Locals(c, files) + Directory(c, files)
    + EndRecord(|files|, DirectorySize(c, files), LocalsSize(c, files))
  }

  lemma FitsPrefix(c: Codec, files: seq<File>, n: nat)
    requires FilesFit(c, files) && n <= |files|
    ensures FilesFit(c, files[..n])
  {
    forall i | 0 <= i < n
      ensures FitsAt(c, files[..n], i)
    {
      assert FitsAt(c, files, i);
      assert files[..n][..i] == files[..i];
    }
  }

  /* ---- the writer ---- */

  /** The local header's fields up to the checksum. */
  method WriteLocalTo14(c: Codec, f: File, header: array<byte>)
    requires header.Length == 30 && Filled(header, [])
    modifies header
    ensures header[..14] == LocalTo14(c, f) && forall i :: 14 <= i < 30 ==> header[i] == 0
  {
    ghost var w: seq<byte> := [];
    var _ := WriteUInt32LE(header, 0, LOCAL, w);
    w := Then(w, 0, LE32(LOCAL));
    var _ := WriteUInt16LE(header, 4, 20, w);
    w := w + LE16(20);
    var _ := WriteUInt16LE(header, 8, Method(c, f), w);
    w := w + Zeros(2) + LE16(Method(c, f));
    assert [] + LE32(LOCAL) == LE32(LOCAL);
    assert header[..14] == w + header[10..14];
    assert header[10..14] == Zeros(4);
  }

  /** And up to the name's length. */
  method WriteLocalTo26(c: Codec, f: File, header: array<byte>) returns (r: Result<(), RangeError>)
    requires c.Lawful() && header.Length == 30 && Filled(header, [])
    modifies header
    ensures r.Ok? <==> ContentFits(c, f)
    ensures r.Ok? ==> Filled(header, LocalTo26(c, f))
  {
    var data, crc := Data(c, f), c.crc32(f.content);
    WriteLocalTo14(c, f, header);
    hide LocalTo14, LE32;
    ghost var w := LocalTo14(c, f);
    var _ := WriteUInt32LE(header, 14, crc, w);
    w := w + LE32(crc);
    var _ :- WriteUInt32LE(header, 18, |data|, w);
    w := w + LE32(|data|);
    var _ :- WriteUInt32LE(header, 22, |f.content|, w);
    return Ok(());
  }

  method WriteLocalHeader(c: Codec, f: File) returns (r: Result<seq<byte>, RangeError>)
    requires c.Lawful()
    ensures r.Ok? <==> FileFits(c, f, 0)
    ensures r.Ok? ==> r.value == LocalHeader(c, f)
  {
    hide LocalTo26;
    var header := new byte[30](_ => 0);
    var _ :- WriteLocalTo26(c, f, header);
    ghost var w := LocalTo26(c, f);
    var _ :- WriteUInt16LE(header, 26, |c.utf8(f.name)|, w);
    assert header[..] == header[..28] + header[28..];
    assert header[28..] == Zeros(2);
    return Ok(header[..]);
  }

  /** The central header's fields up to the checksum. */
  method WriteCentralTo16(c: Codec, f: File, central: array<byte>)
    requires central.Length == 46 && Filled(central, [])
    modifies central
    ensures central[..16] == CentralTo16(c, f) && forall i :: 16 <= i < 46 ==> central[i] == 0
  {
    ghost var w: seq<byte> := [];
    var _ := WriteUInt32LE(central, 0, CENTRAL, w);
    w := Then(w, 0, LE32(CENTRAL));
    var _ := WriteUInt16LE(central, 4, 20, w);
    w := w + LE16(20);
    var _ := WriteUInt16LE(central, 6, 20, w);
    w := w + LE16(20);
    var _ := WriteUInt16LE(central, 10, Method(c, f), w);
    w := w + Zeros(2) + LE16(Method(c, f));
    assert [] + LE32(CENTRAL) == LE32(CENTRAL);
    assert central[..16] == w + central[12..16];
    assert central[12..16] == Zeros(4);
  }

  /** And up to the name's length. */
  method WriteCentralTo28(c: Codec, f: File, central: array<byte>) returns (r: Result<(), RangeError>)
    requires c.Lawful() && central.Length == 46 && Filled(central, [])
    modifies central
    ensures r.Ok? <==> ContentFits(c, f)
    ensures r.Ok? ==> Filled(central, CentralTo28(c, f))
  {
    var data, crc := Data(c, f), c.crc32(f.content);
    WriteCentralTo16(c, f, central);
    hide CentralTo16, LE32;
    ghost var w := CentralTo16(c, f);
    var _ := WriteUInt32LE(central, 16, crc, w);
    w := w + LE32(crc);
    var _ :- WriteUInt32LE(central, 20, |data|, w);
    w := w + LE32(|data|);
    var _ :- WriteUInt32LE(central, 24, |f.content|, w);
    return Ok(());
  }

  method WriteCentralHeader(c: Codec, f: File, offset: nat) returns (r: Result<seq<byte>, RangeError>)
    requires c.Lawful()
    ensures r.Ok? <==> FileFits(c, f, offset)
    ensures r.Ok? ==> r.value == CentralHeader(c, f, offset)
  {
    hide CentralTo28;
    var central := new byte[46](_ => 0);
    var _ :- WriteCentralTo28(c, f, central);
    ghost var w := CentralTo28(c, f);
    var _ :- WriteUInt16LE(central, 28, |c.utf8(f.name)|, w);
    w := w + LE16(|c.utf8(f.name)|);
    var _ :- WriteUInt32LE(central, 42, offset, w);
    assert central[..] == central[..46];
    return Ok(central[..]);
  }

  method WriteEndRecord(count: nat, directory: nat, offset: nat) returns (r: Result<seq<byte>, RangeError>)
    ensures r.Ok? <==> count < 0x1_0000 && directory < 0x1_0000_0000 && offset < 0x1_0000_0000
    ensures r.Ok? ==> r.value == EndRecord(count, directory, offset)
  {
    var end := new byte[22](_ => 0);
    ghost var w: seq<byte> := [];
    var _ := WriteUInt32LE(end, 0, EOCD, w);
    w := Then(w, 0, LE32(EOCD));
    var _ :- WriteUInt16LE(end, 8, count, w);
    w := w + Zeros(4) + LE16(count);
    var _ := WriteUInt16LE(end, 10, count, w);
    w := w + LE16(count);
    var _ :- WriteUInt32LE(end, 12, directory, w);
    w := w + LE32(directory);
    var _ :- WriteUInt32LE(end, 16, offset, w);
    w := w + LE32(offset);
    assert end[..] == end[..20] + end[20..];
    assert end[20..] == Zeros(2);
    assert [] + LE32(EOCD) == LE32(EOCD);
    return Ok(end[..]);
  }

  /** `writeZip`: the archive, or a RangeError for the first field that does not fit. */
  method WriteZip(c: Codec, files: seq<File>) returns (r: Result<seq<byte>, RangeError>)
    requires c.Lawful()
    ensures r.Ok? <==> Fits(c, files)
    ensures r.Ok? ==> r.value == Archive(c, files)
  {
    var locals: seq<byte>, directory: seq<byte>, offset := [], [], 0;
    for n := 0 to |files|
      invariant FilesFit(c, files[..n])
      invariant locals == Locals(c, files[..n])
      invariant directory == Directory(c, files[..n])
      invariant offset == LocalsSize(c, files[..n])
    {
      var f := files[n];
      assert files[..n + 1][..n] == files[..n];
      assert FilesFit(c, files) ==> FitsAt(c, files, n);
      assert FileFits(c, f, offset) ==> FileFits(c, f, 0);
      var header :- WriteLocalHeader(c, f);
      var central :- WriteCentralHeader(c, f, offset);
      FitsExtend(c, files, n);
      locals := locals + (header + c.utf8(f.name) + Data(c, f));
      directory := directory + (central + c.utf8(f.name));
      offset := offset + |header| + |c.utf8(f.name)| + |Data(c, f)|;
    }
    assert files[..|files|] == files;
    var end :- WriteEndRecord(|files|, |directory|, offset);
    return Ok(locals + directory + end);
  }

  lemma FitsExtend(c: Codec, files: seq<File>, n: nat)
    requires n < |files| && FilesFit(c, files[..n])
    requires FileFits(c, files[n], LocalsSize(c, files[..n]))
    ensures FilesFit(c, files[..n + 1])
  {
    var longer := files[..n + 1];
    forall i | 0 <= i < |longer|
      ensures FitsAt(c, longer, i)
    {
      assert longer[..i] == files[..i];
      if i < n {
        assert FitsAt(c, files[..n], i);
        assert files[..n][i] == files[i] && files[..n][..i] == files[..i];
      }
    }
  }

  /* ---- the reader ---- */

  function Read16(z: seq<byte>, at: int): Result<int, ZipError> {
    match U16(z, at) case Ok(v) => Ok(v) case Err(_) => Err(OutOfRange)
  }

  function Read32(z: seq<byte>, at: int): Result<int, ZipError> {
    match U32(z, at) case Ok(v) => Ok(v) case Err(_) => Err(OutOfRange)
  }

  /** `subarray(start, start + size)`: clamped to the buffer, never a throw. */
  function Subarray(z: seq<byte>, start: nat, size: nat): seq<byte> {
    if start >= |z| then [] else if start + size >= |z| then z[start..] else z[start..start + size]
  }

  datatype Entry = Entry(name: string, content: seq<byte>, next: nat)

  /** The fields of a central header that the reader uses; `next` is where the next one starts. */
  datatype Central = Central(compression: nat, size: nat, nameLength: nat, local: nat, next: nat)

  function CentralAt(z: seq<byte>, at: nat): Result<Central, ZipError> {
    var signature :- Read32(z, at);
    if signature != CENTRAL then Err(BadCentral) else
    var compression :- Read16(z, at + 10);
    var size :- Read32(z, at + 20);
    var nameLength :- Read16(z, at + 28);
    var extraLength :- Read16(z, at + 30);
    var commentLength :- Read16(z, at + 32);
    var local :- Read32(z, at + 42);
    Ok(Central(compression, size, nameLength, local, at + 46 + nameLength + extraLength + commentLength))
  }

  /** Where the data of the entry whose local header is at `local` starts. */
  function DataStart(z: seq<byte>, local: nat): Result<nat, ZipError> {
    var signature :- Read32(z, local);
    if signature != LOCAL then Err(BadLocal) else
    var nameLength :- Read16(z, local + 26);
    var extraLength :- Read16(z, local + 28);
    var start: nat := local + 30 + nameLength + extraLength;
    Ok(start)
  }

  /** One turn of the directory loop: the entry whose central header is at `at`. */
  function EntryAt(c: Codec, z: seq<byte>, at: nat): Result<Entry, ZipError> {
    var h :- CentralAt(z, at);
    var name := c.fromUtf8(Subarray(z, at + 46, h.nameLength));
    var start :- DataStart(z, h.local);
    var data := Subarray(z, start, h.size);
    if h.compression == 0 then Ok(Entry(name, data, h.next))
    else if h.compression == 8 then
      match c.inflate(data) case Some(raw) => Ok(Entry(name, raw, h.next)) case None => Err(BadDeflate)
    else Err(BadMethod)
  }

  ghost function EntriesFrom(c: Codec, z: seq<byte>, at: nat, count: nat, entries: map<string, seq<byte>>)
    : Result<map<string, seq<byte>>, ZipError>
    decreases count
  {
    if count == 0 then Ok(entries)
    else
      var e :- EntryAt(c, z, at);
      EntriesFrom(c, z, e.next, count - 1, entries[e.name := e.content])
  }

  /** What the reader refuses an entry for: a read past the end, and each of its signatures and its method. */
  lemma EntryErrors(c: Codec, z: seq<byte>, at: nat)
    ensures EntryAt(c, z, at) == Err(BadCentral) <==> at + 4 <= |z| && U32(z, at) != Ok(0x02014b50)
    ensures at + 46 > |z| && EntryAt(c, z, at) != Err(BadCentral) ==> EntryAt(c, z, at) == Err(OutOfRange)
    ensures at + 46 <= |z| && U32(z, at) == Ok(0x02014b50) ==>
              var local := U32(z, at + 42).value;
              && (EntryAt(c, z, at) == Err(BadLocal) <==> local + 4 <= |z| && U32(z, local) != Ok(0x04034b50))
              && (EntryAt(c, z, at) == Err(OutOfRange) <==>
                    local + 4 > |z| || (U32(z, local) == Ok(0x04034b50) && local + 30 > |z|))
              && (EntryAt(c, z, at) == Err(BadMethod) <==>
                    local + 30 <= |z| && U32(z, local) == Ok(0x04034b50)
                    && U16(z, at + 10) != Ok(0) && U16(z, at + 10) != Ok(8))
  {
  }

  /** The lowest place an end record may start: it holds a comment of at most 65535 bytes. */
  function Lowest(z: seq<byte>): int {
    if |z| - 22 - 0xffff > 0 then |z| - 22 - 0xffff else 0
  }

  /** The last end-of-central-directory signature at or before `i`. */
  ghost function EndAt(z: seq<byte>, i: int): (end: Option<nat>)
    requires i <= |z| - 22
    ensures end.Some? ==> end.value <= |z| - 22
    decreases i
  {
    if i < Lowest(z) then None
    else if U32(z, i) == Ok(EOCD) then Some(i)
    else EndAt(z, i - 1)
  }

  ghost function Read(c: Codec, z: seq<byte>): Result<map<string, seq<byte>>, ZipError> {
    if |z| < 22 then Err(NotZip) else
    match EndAt(z, |z| - 22)
    case None => Err(NotZip)
    case Some(end) =>
      var count, at := U16(z, end + 10).value, U32(z, end + 16).value;
      EntriesFrom(c, z, at, count, map[])
  }

  /** `readZip`'s backward scan: the offset of the end record, or -1. */
  method FindEnd(zip: seq<byte>) returns (end: int)
    requires |zip| >= 22
    ensures EndAt(zip, |zip| - 22) == if end >= 0 then Some(end) else None
    ensures end >= 0 ==> |zip| - 22 - 65_535 <= end <= |zip| - 22 && U32(zip, end) == Ok(0x06054b50)
    ensures forall i :: (if end >= 0 then end + 1 else |zip| - 22 - 65_535) <= i <= |zip| - 22 ==>
              U32(zip, i) != Ok(0x06054b50)
  {
    end := -1;
    var i := |zip| - 22;
    while i >= Lowest(zip)
      invariant i <= |zip| - 22
      invariant EndAt(zip, |zip| - 22) == EndAt(zip, i)
      invariant forall j :: i < j <= |zip| - 22 ==> U32(zip, j) != Ok(EOCD)
    {
      if U32(zip, i) == Ok(EOCD) {
        return i;
      }
      i := i - 1;
    }
  }

  /** `readZip`'s walk of the central directory. */
  method ReadEntries(c: Codec, zip: seq<byte>, start: nat, count: nat)
    returns (r: Result<map<string, seq<byte>>, ZipError>)
    ensures r == EntriesFrom(c, zip, start, count, map[])
  {
    hide EntryAt;
    var at, entries := start, map[];
    ghost var all := EntriesFrom(c, zip, start, count, map[]);
    for n := 0 to count
      invariant EntriesFrom(c, zip, at, count - n, entries) == all
    {
      var e :- EntryAt(c, zip, at);
      entries := entries[e.name := e.content];
      at := e.next;
    }
    return Ok(entries);
  }

  /** `readZip`. */
  method ReadZip(c: Codec, zip: seq<byte>) returns (r: Result<map<string, seq<byte>>, ZipError>)
    ensures r == Read(c, zip)
  {
    if |zip| < 22 {
      return Err(NotZip);
    }
    var end := FindEnd(zip);
    if end < 0 {
      return Err(NotZip);
    }
    r := ReadEntries(c, zip, U32(zip, end + 16).value, U16(zip, end + 10).value);
  }

  /* ---- the round trip ---- */

  ghost function Collected(files: seq<File>): map<string, seq<byte>> {
    if files == [] then map[]
    else Collected(files[..|files| - 1])[files[|files| - 1].name := files[|files| - 1].content]
  }

  /** Each name reads back from its own UTF-8: false of a name with a lone surrogate. */
  ghost predicate NamesDecode(c: Codec, files: seq<File>) {
    forall f :: f in files ==> c.fromUtf8(c.utf8(f.name)) == f.name
  }

  ghost predicate DistinctNames(files: seq<File>) {
    forall i, j :: 0 <= i < j < |files| ==> files[i].name != files[j].name
  }

  /** Where `f`'s two headers lie in `z`. */
  ghost predicate EntryIn(c: Codec, f: File, z: seq<byte>, offset: nat, at: nat)
  {
    && FileFits(c, f, offset)
    && offset + LocalSize(c, f) <= |z|
    && at + 46 + |c.utf8(f.name)| <= |z|
    && z[offset..offset + LocalSize(c, f)] == LocalBytes(c, f)
    && z[at..at + 46 + |c.utf8(f.name)|] == CentralBytes(c, f, offset)
  }

  lemma LocalHeaderReads(c: Codec, f: File)
    requires FileFits(c, f, 0)
    ensures var h := LocalHeader(c, f);
      U32(h, 0) == Ok(LOCAL) && U16(h, 26) == Ok(|c.utf8(f.name)|) && U16(h, 28) == Ok(0)
  {
  }

  lemma CentralTo16Reads(c: Codec, f: File)
    ensures U32(CentralTo16(c, f), 0) == Ok(CENTRAL) && U16(CentralTo16(c, f), 10) == Ok(Method(c, f))
  {
  }

  lemma CentralTo28Reads(c: Codec, f: File)
    requires ContentFits(c, f)
    ensures U32(CentralTo28(c, f), 0) == Ok(CENTRAL) && U16(CentralTo28(c, f), 10) == Ok(Method(c, f))
    ensures U32(CentralTo28(c, f), 20) == Ok(|Data(c, f)|)
  {
    CentralTo16Reads(c, f);
    hide CentralTo16;
    var a, b := CentralTo16(c, f), CentralTo28(c, f);
    assert b == a + b[16..];
    ReadsInPrefix(a, b[16..]);
    LE32Reads(a + LE32(c.crc32(f.content)), |Data(c, f)|, LE32(|f.content|));
  }

  lemma CentralHeaderReads(c: Codec, f: File, offset: nat)
    requires FileFits(c, f, offset)
    ensures var h := CentralHeader(c, f, offset);
      && U32(h, 0) == Ok(CENTRAL)
      && U16(h, 10) == Ok(Method(c, f))
      && U32(h, 20) == Ok(|Data(c, f)|)
      && U16(h, 28) == Ok(|c.utf8(f.name)|)
      && U16(h, 30) == Ok(0)
      && U16(h, 32) == Ok(0)
      && U32(h, 42) == Ok(offset)
  {
    CentralTo28Reads(c, f);
    hide CentralTo28;
    var b, h, n := CentralTo28(c, f), CentralHeader(c, f, offset), |c.utf8(f.name)|;
    assert h == b + h[28..];
    ReadsInPrefix(b, h[28..]);
    assert h == b + LE16(n) + (Zeros(12) + LE32(offset));
    LE16Reads(b, n, Zeros(12) + LE32(offset));
    assert h[30] == h[31] == h[32] == h[33] == 0;
    assert h == b + LE16(n) + Zeros(12) + LE32(offset) + [];
    LE32Reads(b + LE16(n) + Zeros(12), offset, []);
  }

  lemma Within(z: seq<byte>, at: nat, part: seq<byte>)
    requires at + |part| <= |z| && z[at..at + |part|] == part
    ensures forall k: nat :: k + 2 <= |part| ==> U16(z, at + k) == U16(part, k)
    ensures forall k: nat :: k + 4 <= |part| ==> U32(z, at + k) == U32(part, k)
  {
  }

  lemma CentralReads(c: Codec, f: File, z: seq<byte>, offset: nat, at: nat)
    requires EntryIn(c, f, z, offset, at)
    ensures CentralAt(z, at)
      == Ok(Central(Method(c, f), |Data(c, f)|, |c.utf8(f.name)|, offset, at + 46 + |c.utf8(f.name)|))
  {
    var h := CentralHeader(c, f, offset);
    assert z[at..at + 46] == h by {
      assert z[at..at + 46] == z[at..at + 46 + |c.utf8(f.name)|][..46];
    }
    Within(z, at, h);
    CentralHeaderReads(c, f, offset);
    hide CentralHeader, EntryIn, U16, U32;
    assert U32(z, at + 0) == Ok(CENTRAL) && U16(z, at + 10) == Ok(Method(c, f));
    assert U32(z, at + 20) == Ok(|Data(c, f)|) && U16(z, at + 28) == Ok(|c.utf8(f.name)|);
    assert U16(z, at + 30) == Ok(0) && U16(z, at + 32) == Ok(0) && U32(z, at + 42) == Ok(offset);
  }

  lemma DataStartReads(c: Codec, f: File, z: seq<byte>, offset: nat, at: nat)
    requires EntryIn(c, f, z, offset, at)
    ensures DataStart(z, offset) == Ok(offset + 30 + |c.utf8(f.name)|)
  {
    var l := LocalHeader(c, f);
    assert z[offset..offset + 30] == l by {
      assert z[offset..offset + 30] == z[offset..offset + LocalSize(c, f)][..30];
    }
    Within(z, offset, l);
    LocalHeaderReads(c, f);
    hide LocalHeader, EntryIn, U16, U32;
    assert U32(z, offset + 0) == Ok(LOCAL);
    assert U16(z, offset + 26) == Ok(|c.utf8(f.name)|) && U16(z, offset + 28) == Ok(0);
  }

  lemma EntryParts(c: Codec, f: File, z: seq<byte>, offset: nat, at: nat)
    requires EntryIn(c, f, z, offset, at)
    ensures Subarray(z, at + 46, |c.utf8(f.name)|) == c.utf8(f.name)
    ensures Subarray(z, offset + 30 + |c.utf8(f.name)|, |Data(c, f)|) == Data(c, f)
  {
    var name, data := c.utf8(f.name), Data(c, f);
    var central := z[at..at + 46 + |name|];
    var local := z[offset..offset + LocalSize(c, f)];
    assert z[at + 46..at + 46 + |name|] == central[46..] == name;
    assert z[offset + 30 + |name|..offset + LocalSize(c, f)] == local[30 + |name|..] == data;
  }

  lemma EntryReads(c: Codec, f: File, z: seq<byte>, offset: nat, at: nat)
    requires c.Lawful() && EntryIn(c, f, z, offset, at)
    requires c.fromUtf8(c.utf8(f.name)) == f.name
    ensures EntryAt(c, z, at) == Ok(Entry(f.name, f.content, at + 46 + |c.utf8(f.name)|))
  {
    hide CentralAt, DataStart, EntryIn;
    CentralReads(c, f, z, offset, at);
    DataStartReads(c, f, z, offset, at);
    EntryParts(c, f, z, offset, at);
  }

  lemma SliceOfPrefix(a: seq<byte>, b: seq<byte>, i: nat, j: nat)
    requires i <= j <= |a|
    ensures (a + b)[i..j] == a[i..j]
  {
  }

  lemma SliceOfSuffix(a: seq<byte>, b: seq<byte>, i: nat, j: nat)
    requires i <= j <= |b|
    ensures (a + b)[|a| + i..|a| + j] == b[i..j]
  {
  }

  lemma {:induction false} LocalRegion(c: Codec, files: seq<File>, k: nat)
    requires FilesFit(c, files) && k < |files|
    ensures FitsAt(c, files, k)
    ensures LocalsSize(c, files[..k]) + LocalSize(c, files[k]) == LocalsSize(c, files[..k + 1]) <= LocalsSize(c, files)
    ensures Locals(c, files)[LocalsSize(c, files[..k])..LocalsSize(c, files[..k + 1])] == LocalBytes(c, files[k])
    decreases |files|
  {
    hide LocalBytes, LocalSize, Data;
    var n := |files| - 1;
    assert FitsAt(c, files, k);
    assert files[..k + 1][..k] == files[..k];
    if k < n {
      FitsPrefix(c, files, n);
      LocalRegion(c, files[..n], k);
      assert files[..n][..k] == files[..k] && files[..n][..k + 1] == files[..k + 1];
      assert FitsAt(c, files, n);
      SliceOfPrefix(Locals(c, files[..n]), LocalBytes(c, files[n]),
                    LocalsSize(c, files[..k]), LocalsSize(c, files[..k + 1]));
    } else {
      assert files[..k + 1] == files;
      FitsPrefix(c, files, n);
      SliceOfSuffix(Locals(c, files[..n]), LocalBytes(c, files[n]), 0, |LocalBytes(c, files[n])|);
    }
  }

  lemma {:induction false} CentralRegion(c: Codec, files: seq<File>, k: nat)
    requires FilesFit(c, files) && k < |files|
    ensures FitsAt(c, files, k)
    ensures DirectorySize(c, files[..k]) + 46 + |c.utf8(files[k].name)| <= DirectorySize(c, files)
    ensures var at := DirectorySize(c, files[..k]);
            Directory(c, files)[at..at + 46 + |c.utf8(files[k].name)|]
            == CentralBytes(c, files[k], LocalsSize(c, files[..k]))
    decreases |files|
  {
    hide CentralBytes, LocalsSize, Data;
    var n, size := |files| - 1, 46 + |c.utf8(files[k].name)|;
    assert FitsAt(c, files, k) && FitsAt(c, files, n);
    FitsPrefix(c, files, n);
    if k < n {
      CentralRegion(c, files[..n], k);
      assert files[..n][..k] == files[..k];
      SliceOfPrefix(Directory(c, files[..n]), CentralBytes(c, files[n], LocalsSize(c, files[..n])),
                    DirectorySize(c, files[..k]), DirectorySize(c, files[..k]) + size);
    } else {
      SliceOfSuffix(Directory(c, files[..n]), CentralBytes(c, files[n], LocalsSize(c, files[..n])), 0, size);
    }
  }

  lemma LocalInArchive(c: Codec, files: seq<File>, k: nat)
    requires Fits(c, files) && k < |files|
    ensures FitsAt(c, files, k)
    ensures var z, at := Archive(c, files), LocalsSize(c, files[..k]);
            at + LocalSize(c, files[k]) <= |z| && z[at..at + LocalSize(c, files[k])] == LocalBytes(c, files[k])
  {
    hide LocalBytes, LocalSize, EndRecord, Locals, Directory, FilesFit;
    LocalRegion(c, files, k);
    var end := EndRecord(|files|, DirectorySize(c, files), LocalsSize(c, files));
    assert Archive(c, files) == Locals(c, files) + (Directory(c, files) + end);
    SliceOfPrefix(Locals(c, files), Directory(c, files) + end,
                  LocalsSize(c, files[..k]), LocalsSize(c, files[..k + 1]));
  }

  lemma CentralInArchive(c: Codec, files: seq<File>, k: nat)
    requires Fits(c, files) && k < |files|
    ensures FitsAt(c, files, k)
    ensures var z, at := Archive(c, files), LocalsSize(c, files) + DirectorySize(c, files[..k]);
            var size := 46 + |c.utf8(files[k].name)|;
            at + size <= |z| && z[at..at + size] == CentralBytes(c, files[k], LocalsSize(c, files[..k]))
  {
    hide CentralBytes, EndRecord, Locals, Directory, FilesFit, LocalsSize;
    CentralRegion(c, files, k);
    var d, size := DirectorySize(c, files[..k]), 46 + |c.utf8(files[k].name)|;
    var end := EndRecord(|files|, DirectorySize(c, files), LocalsSize(c, files));
    assert Archive(c, files) == Locals(c, files) + (Directory(c, files) + end);
    SliceOfPrefix(Directory(c, files), end, d, d + size);
    SliceOfSuffix(Locals(c, files), Directory(c, files) + end, d, d + size);
  }

  /** Where each file's headers, name and data lie: its own region of each part. */
  lemma EntryInArchive(c: Codec, files: seq<File>, k: nat)
    requires Fits(c, files) && k < |files|
    ensures EntryIn(c, files[k], Archive(c, files), LocalsSize(c, files[..k]),
                    LocalsSize(c, files) + DirectorySize(c, files[..k]))
  {
    hide LocalBytes, CentralBytes, Archive, LocalsSize, DirectorySize, FilesFit;
    LocalInArchive(c, files, k);
    CentralInArchive(c, files, k);
  }

  lemma {:induction false} DirectoryReads(c: Codec, files: seq<File>, k: nat)
    requires c.Lawful() && Fits(c, files) && NamesDecode(c, files) && k <= |files|
    ensures EntriesFrom(c, Archive(c, files), LocalsSize(c, files) + DirectorySize(c, files[..k]),
                        |files| - k, Collected(files[..k])) == Ok(Collected(files))
    decreases |files| - k
  {
    hide LocalHeader, CentralHeader, EndRecord, EntryAt, EntryIn, Archive, Locals, Directory, Fits, FilesFit;
    if k == |files| {
      assert files[..k] == files;
    } else {
      var z, at := Archive(c, files), LocalsSize(c, files) + DirectorySize(c, files[..k]);
      EntryInArchive(c, files, k);
      assert files[k] in files;
      EntryReads(c, files[k], z, LocalsSize(c, files[..k]), at);
      assert files[..k + 1][..k] == files[..k];
      DirectoryReads(c, files, k + 1);
    }
  }

  lemma EndRecordReads(count: nat, directory: nat, offset: nat)
    requires count < 0x1_0000 && directory < 0x1_0000_0000 && offset < 0x1_0000_0000
    ensures var e := EndRecord(count, directory, offset);
      U32(e, 0) == Ok(EOCD) && U16(e, 10) == Ok(count) && U32(e, 16) == Ok(offset)
  {
    var e := EndRecord(count, directory, offset);
    var a := LE32(EOCD) + Zeros(4) + LE16(count);
    assert e == [] + LE32(EOCD) + e[4..];
    LE32Reads([], EOCD, e[4..]);
    assert e == a + LE16(count) + e[12..];
    LE16Reads(a, count, e[12..]);
    LE32Reads(a + LE16(count) + LE32(directory), offset, Zeros(2));
  }

  lemma EndReads(c: Codec, files: seq<File>)
    requires Fits(c, files)
    ensures var z := Archive(c, files);
      && |z| >= 22 && EndAt(z, |z| - 22) == Some(|z| - 22)
      && U16(z, |z| - 12) == Ok(|files|)
      && U32(z, |z| - 6) == Ok(LocalsSize(c, files))
  {
    hide EndRecord, Locals, Directory, FilesFit, LocalsSize, DirectorySize;
    var z := Archive(c, files);
    var e := EndRecord(|files|, DirectorySize(c, files), LocalsSize(c, files));
    var end := |z| - 22;
    SliceOfSuffix(Locals(c, files) + Directory(c, files), e, 0, 22);
    EndRecordReads(|files|, DirectorySize(c, files), LocalsSize(c, files));
    Within(z, end, e);
    assert U32(z, end + 0) == U32(e, 0);
    assert U16(z, end + 10) == U16(e, 10);
    assert U32(z, end + 16) == U32(e, 16);
  }

  lemma {:induction false} CollectedNames(files: seq<File>)
    ensures forall name :: name in Collected(files) <==> exists f :: f in files && f.name == name
  {
    if files != [] {
      var n := |files| - 1;
      CollectedNames(files[..n]);
      assert files == files[..n] + [files[n]];
    }
  }

  lemma {:induction false} CollectedHolds(files: seq<File>)
    requires DistinctNames(files)
    ensures forall i :: 0 <= i < |files| ==>
      files[i].name in Collected(files) && Collected(files)[files[i].name] == files[i].content
    ensures |Collected(files)| == |files|
  {
    if files != [] {
      var n := |files| - 1;
      var rest := files[..n];
      CollectedHolds(rest);
      CollectedNames(rest);
      assert files[n].name !in Collected(rest);
      forall i | 0 <= i < n
        ensures files[i].name in Collected(files) && Collected(files)[files[i].name] == files[i].content
      {
        assert rest[i] == files[i];
      }
    }
  }

  /**
   * Reading what the writer wrote gives back exactly the files, whatever their bytes:
   * for every set of distinct names within the field limits.
   */
  lemma RoundTrip(c: Codec, files: seq<File>)
    requires c.Lawful() && Fits(c, files) && NamesDecode(c, files) && DistinctNames(files)
    ensures Read(c, Archive(c, files)).Ok?
    ensures var m := Read(c, Archive(c, files)).value;
      && |m| == |files|
      && (forall i :: 0 <= i < |files| ==> files[i].name in m && m[files[i].name] == files[i].content)
  {
    hide LocalHeader, CentralHeader, EndRecord, EntryAt;
    EndReads(c, files);
    assert files[..0] == [];
    DirectoryReads(c, files, 0);
    CollectedHolds(files);
  }

  lemma {:induction false} SizesBounded(c: Codec, files: seq<File>)
    ensures LocalsSize(c, files) + DirectorySize(c, files) <= Bound(c, files)
  {
    if files != [] {
      SizesBounded(c, files[..|files| - 1]);
    }
  }

  ghost function Bound(c: Codec, files: seq<File>): nat {
    if files == [] then 0
    else
      var f := files[|files| - 1];
      Bound(c, files[..|files| - 1]) + 76 + 2 * |c.utf8(f.name)| + |f.content|
  }

  /** Local region `k` starts where region `k - 1` ended, and the next starts where it ends. */
  ghost predicate Contiguous(c: Codec, files: seq<File>, k: nat)
    requires k < |files|
  {
    LocalsSize(c, files[..k]) + LocalSize(c, files[k]) == LocalsSize(c, files[..k + 1]) <= LocalsSize(c, files)
  }

  /**
   * The local regions are disjoint and in order, together they are exactly the bytes before
   * the directory, and the archive costs at most 22 bytes plus 76 and two names a file.
   */
  lemma Layout(c: Codec, files: seq<File>)
    requires Fits(c, files)
    ensures LocalsSize(c, files[..0]) == 0 && LocalsSize(c, files[..|files|]) == |Locals(c, files)|
    ensures Archive(c, files)[..LocalsSize(c, files)] == Locals(c, files)
    ensures forall k :: 0 <= k < |files| ==> Contiguous(c, files, k)
    ensures |Archive(c, files)| <= 22 + Bound(c, files)
  {
    hide LocalBytes, CentralBytes, EndRecord;
    assert files[..|files|] == files;
    forall k | 0 <= k < |files|
      ensures Contiguous(c, files, k)
    {
      LocalRegion(c, files, k);
    }
    SizesBounded(c, files);
  }

  /* ---- archives of other writers ---- */

  /** An entry as any writer may lay it out: extra fields and a comment, local and central names apart. */
  datatype Foreign = Foreign(
    header: seq<byte>, name: seq<byte>, extra: seq<byte>, comment: seq<byte>,
    local: nat, localHeader: seq<byte>, localName: seq<byte>, localExtra: seq<byte>, data: seq<byte>, stored: bool)
  {
    ghost function CentralPart(): seq<byte> {
      header + name + extra + comment
    }

    ghost function LocalPart(): seq<byte> {
      localHeader + localName + localExtra + data
    }

    /** Sections 4.3.12 and 4.3.7, of the fields a reader needs. */
    ghost predicate WellFormed() {
      && |header| == 46 && U32(header, 0) == Ok(0x02014b50)
      && U16(header, 10) == Ok(if stored then 0 else 8) && U32(header, 20) == Ok(|data|)
      && U16(header, 28) == Ok(|name|) && U16(header, 30) == Ok(|extra|) && U16(header, 32) == Ok(|comment|)
      && U32(header, 42) == Ok(local)
      && |localHeader| == 30 && U32(localHeader, 0) == Ok(0x04034b50)
      && U16(localHeader, 26) == Ok(|localName|) && U16(localHeader, 28) == Ok(|localExtra|)
    }
  }

  ghost predicate PartAt(z: seq<byte>, at: nat, part: seq<byte>) {
    at + |part| <= |z| && z[at..at + |part|] == part
  }

  /** The entry's two parts lie where they should, wherever that is. */
  ghost predicate ForeignIn(z: seq<byte>, e: Foreign, at: nat) {
    e.WellFormed() && PartAt(z, at, e.CentralPart()) && PartAt(z, e.local, e.LocalPart())
  }

  ghost predicate Inflates(c: Codec, e: Foreign) {
    e.stored || c.inflate(e.data).Some?
  }

  ghost function ContentOf(c: Codec, e: Foreign): seq<byte>
    requires Inflates(c, e)
  {
    if e.stored then e.data else c.inflate(e.data).value
  }

  lemma PartOf(z: seq<byte>, at: nat, a: seq<byte>, b: seq<byte>)
    requires PartAt(z, at, a + b)
    ensures PartAt(z, at, a) && PartAt(z, at + |a|, b)
  {
    var whole := z[at..at + |a| + |b|];
    assert whole[..|a|] == a && whole[|a|..] == b;
    assert z[at..at + |a|] == whole[..|a|];
    assert z[at + |a|..at + |a| + |b|] == whole[|a|..];
  }

  lemma ForeignCentral(z: seq<byte>, e: Foreign, at: nat)
    requires e.WellFormed() && PartAt(z, at, e.CentralPart())
    ensures CentralAt(z, at)
         == Ok(Central(if e.stored then 0 else 8, |e.data|, |e.name|, e.local,
                       at + 46 + |e.name| + |e.extra| + |e.comment|))
  {
    hide U16, U32;
    assert e.CentralPart() == e.header + (e.name + e.extra + e.comment);
    PartOf(z, at, e.header, e.name + e.extra + e.comment);
    Within(z, at, e.header);
    hide PartAt;
    assert U32(z, at + 0) == U32(e.header, 0) && U16(z, at + 10) == U16(e.header, 10);
    assert U32(z, at + 20) == U32(e.header, 20) && U16(z, at + 28) == U16(e.header, 28);
    assert U16(z, at + 30) == U16(e.header, 30) && U16(z, at + 32) == U16(e.header, 32);
    assert U32(z, at + 42) == U32(e.header, 42);
  }

  lemma ForeignLocal(z: seq<byte>, e: Foreign)
    requires e.WellFormed() && PartAt(z, e.local, e.LocalPart())
    ensures DataStart(z, e.local) == Ok(e.local + 30 + |e.localName| + |e.localExtra|)
  {
    hide U16, U32;
    assert e.LocalPart() == e.localHeader + (e.localName + e.localExtra + e.data);
    PartOf(z, e.local, e.localHeader, e.localName + e.localExtra + e.data);
    Within(z, e.local, e.localHeader);
    hide PartAt;
    assert U32(z, e.local + 0) == U32(e.localHeader, 0);
    assert U16(z, e.local + 26) == U16(e.localHeader, 26) && U16(z, e.local + 28) == U16(e.localHeader, 28);
  }

  lemma ForeignParts(z: seq<byte>, e: Foreign, at: nat)
    requires ForeignIn(z, e, at)
    ensures Subarray(z, at + 46, |e.name|) == e.name
    ensures Subarray(z, e.local + 30 + |e.localName| + |e.localExtra|, |e.data|) == e.data
  {
    hide U16, U32;
    assert e.CentralPart() == e.header + (e.name + (e.extra + e.comment));
    PartOf(z, at, e.header, e.name + (e.extra + e.comment));
    PartOf(z, at + 46, e.name, e.extra + e.comment);
    var before := e.localHeader + e.localName + e.localExtra;
    PartOf(z, e.local, before, e.data);
  }

  lemma ForeignReads(c: Codec, z: seq<byte>, e: Foreign, at: nat)
    requires ForeignIn(z, e, at) && Inflates(c, e)
    ensures EntryAt(c, z, at)
         == Ok(Entry(c.fromUtf8(e.name), ContentOf(c, e), at + |e.CentralPart()|))
  {
    hide CentralAt, DataStart, Subarray, U16, U32;
    assert |e.header| == 46;
    ForeignCentral(z, e, at);
    ForeignLocal(z, e);
    ForeignParts(z, e, at);
  }

  /** The directory holds these entries one after another. */
  ghost predicate DirectoryOf(c: Codec, z: seq<byte>, es: seq<Foreign>, at: nat) {
    es == [] || (ForeignIn(z, es[0], at) && Inflates(c, es[0])
                 && DirectoryOf(c, z, es[1..], at + |es[0].CentralPart()|))
  }

  /** Their contents by name; of entries of one name the last. */
  ghost function Contents(c: Codec, es: seq<Foreign>, entries: map<string, seq<byte>>): map<string, seq<byte>>
    requires forall e :: e in es ==> Inflates(c, e)
  {
    if es == [] then entries
    else
      assert es[0] in es;
      Contents(c, es[1..], entries[c.fromUtf8(es[0].name) := ContentOf(c, es[0])])
  }

  lemma {:induction false} AllInflate(c: Codec, z: seq<byte>, es: seq<Foreign>, at: nat)
    requires DirectoryOf(c, z, es, at)
    ensures forall e :: e in es ==> Inflates(c, e)
  {
    hide ForeignIn;
    if es != [] {
      AllInflate(c, z, es[1..], at + |es[0].CentralPart()|);
      assert es == [es[0]] + es[1..];
    }
  }

  lemma {:induction false} ForeignEntries(
    c: Codec, z: seq<byte>, es: seq<Foreign>, at: nat, entries: map<string, seq<byte>>)
    requires DirectoryOf(c, z, es, at) && forall e :: e in es ==> Inflates(c, e)
    ensures EntriesFrom(c, z, at, |es|, entries) == Ok(Contents(c, es, entries))
    decreases |es|
  {
    hide ForeignIn, EntryAt;
    if es != [] {
      ForeignReads(c, z, es[0], at);
      assert forall e :: e in es[1..] ==> e in es;
      ForeignEntries(c, z, es[1..], at + |es[0].CentralPart()|,
                     entries[c.fromUtf8(es[0].name) := ContentOf(c, es[0])]);
    }
  }

  /** The scan ends at the last signature in reach. */
  lemma {:induction false} EndFound(z: seq<byte>, end: nat, i: int)
    requires |z| >= 22 && end <= i <= |z| - 22 && |z| - 22 - 65_535 <= end && U32(z, end) == Ok(0x06054b50)
    requires forall j :: end < j <= i ==> U32(z, j) != Ok(0x06054b50)
    ensures EndAt(z, i) == Some(end)
    decreases i
  {
    hide U32;
    if i > end {
      EndFound(z, end, i - 1);
    }
  }

  /**
   * Any archive of stored and deflated entries reads as its contents: with extra fields, comments, an
   * archive comment of up to 65535 bytes after the end record, and its parts in any places.
   */
  lemma ReadsOthers(c: Codec, z: seq<byte>, es: seq<Foreign>, at: nat, end: nat)
    requires DirectoryOf(c, z, es, at) && forall e :: e in es ==> Inflates(c, e)
    requires |z| - 22 - 65_535 <= end <= |z| - 22 && U32(z, end) == Ok(0x06054b50)
    requires forall j :: end < j <= |z| - 22 ==> U32(z, j) != Ok(0x06054b50)
    requires U16(z, end + 10) == Ok(|es|) && U32(z, end + 16) == Ok(at)
    ensures Read(c, z) == Ok(Contents(c, es, map[]))
  {
    hide EntriesFrom, EndAt, U16, U32, DirectoryOf;
    EndFound(z, end, |z| - 22);
    ForeignEntries(c, z, es, at, map[]);
  }

  /* ---- the fields ---- */

  /** Section 4.3.7, field by field. */
  ghost predicate LocalHolds(c: Codec, f: File, h: seq<byte>, at: nat) {
    var smaller := |c.deflate(f.content)| < |f.content|;
    && U32(h, at) == Ok(0x04034b50) && U16(h, at + 4) == Ok(20) && U16(h, at + 6) == Ok(0)
    && U16(h, at + 8) == Ok(if smaller then 8 else 0) && U32(h, at + 10) == Ok(0)
    && U32(h, at + 14) == Ok(c.crc32(f.content))
    && U32(h, at + 18) == Ok(if smaller then |c.deflate(f.content)| else |f.content|)
    && U32(h, at + 22) == Ok(|f.content|) && U16(h, at + 26) == Ok(|c.utf8(f.name)|) && U16(h, at + 28) == Ok(0)
  }

  /** Section 4.3.12, field by field. */
  ghost predicate CentralHolds(c: Codec, f: File, offset: nat, h: seq<byte>, at: nat) {
    var smaller := |c.deflate(f.content)| < |f.content|;
    && U32(h, at) == Ok(0x02014b50) && U16(h, at + 4) == Ok(20) && U16(h, at + 6) == Ok(20)
    && U16(h, at + 8) == Ok(0) && U16(h, at + 10) == Ok(if smaller then 8 else 0) && U32(h, at + 12) == Ok(0)
    && U32(h, at + 16) == Ok(c.crc32(f.content))
    && U32(h, at + 20) == Ok(if smaller then |c.deflate(f.content)| else |f.content|)
    && U32(h, at + 24) == Ok(|f.content|) && U16(h, at + 28) == Ok(|c.utf8(f.name)|)
    && U32(h, at + 30) == Ok(0) && U32(h, at + 34) == Ok(0) && U32(h, at + 38) == Ok(0)
    && U32(h, at + 42) == Ok(offset)
  }

  lemma LocalTo14Fields(c: Codec, f: File)
    ensures var h := LocalTo14(c, f);
            && U32(h, 0) == Ok(0x04034b50) && U16(h, 4) == Ok(20) && U16(h, 6) == Ok(0)
            && U16(h, 8) == Ok(if |c.deflate(f.content)| < |f.content| then 8 else 0) && U32(h, 10) == Ok(0)
  {
  }

  lemma LocalTo26Fields(c: Codec, f: File)
    requires ContentFits(c, f)
    ensures var h := LocalTo26(c, f);
            && (forall k: nat :: k + 2 <= 14 ==> U16(h, k) == U16(LocalTo14(c, f), k))
            && (forall k: nat :: k + 4 <= 14 ==> U32(h, k) == U32(LocalTo14(c, f), k))
            && U32(h, 14) == Ok(c.crc32(f.content)) && U32(h, 18) == Ok(|Data(c, f)|) && U32(h, 22) == Ok(|f.content|)
  {
    hide LocalTo14, Data;
    var a, h := LocalTo14(c, f), LocalTo26(c, f);
    var crc, size, length := LE32(c.crc32(f.content)), LE32(|Data(c, f)|), LE32(|f.content|);
    assert h == a + crc + (size + length);
    LE32Reads(a, c.crc32(f.content), size + length);
    assert h == a + crc + size + length;
    LE32Reads(a + crc, |Data(c, f)|, length);
    assert h == a + crc + size + length + [];
    LE32Reads(a + crc + size, |f.content|, []);
    assert h[0..14] == a;
    Within(h, 0, a);
  }

  lemma LocalFields(c: Codec, f: File)
    requires FileFits(c, f, 0)
    ensures LocalHolds(c, f, LocalHeader(c, f), 0)
  {
    LocalTo14Fields(c, f);
    LocalTo26Fields(c, f);
    hide LocalTo14, LocalTo26;
    var a, h := LocalTo26(c, f), LocalHeader(c, f);
    assert h == a + LE16(|c.utf8(f.name)|) + Zeros(2);
    LE16Reads(a, |c.utf8(f.name)|, Zeros(2));
    assert h[0..26] == a;
    Within(h, 0, a);
    assert h[28] == 0 && h[29] == 0;
  }

  lemma CentralTo16Fields(c: Codec, f: File)
    ensures var h := CentralTo16(c, f);
            && U32(h, 0) == Ok(0x02014b50) && U16(h, 4) == Ok(20) && U16(h, 6) == Ok(20) && U16(h, 8) == Ok(0)
            && U16(h, 10) == Ok(if |c.deflate(f.content)| < |f.content| then 8 else 0) && U32(h, 12) == Ok(0)
  {
  }

  lemma CentralTo28Fields(c: Codec, f: File)
    requires ContentFits(c, f)
    ensures var h := CentralTo28(c, f);
            && (forall k: nat :: k + 2 <= 16 ==> U16(h, k) == U16(CentralTo16(c, f), k))
            && (forall k: nat :: k + 4 <= 16 ==> U32(h, k) == U32(CentralTo16(c, f), k))
            && U32(h, 16) == Ok(c.crc32(f.content)) && U32(h, 20) == Ok(|Data(c, f)|) && U32(h, 24) == Ok(|f.content|)
  {
    hide CentralTo16, Data;
    var a, h := CentralTo16(c, f), CentralTo28(c, f);
    var crc, size, length := LE32(c.crc32(f.content)), LE32(|Data(c, f)|), LE32(|f.content|);
    assert h == a + crc + (size + length);
    LE32Reads(a, c.crc32(f.content), size + length);
    assert h == a + crc + size + length;
    LE32Reads(a + crc, |Data(c, f)|, length);
    assert h == a + crc + size + length + [];
    LE32Reads(a + crc + size, |f.content|, []);
    assert h[0..16] == a;
    Within(h, 0, a);
  }

  lemma CentralFields(c: Codec, f: File, offset: nat)
    requires FileFits(c, f, offset)
    ensures CentralHolds(c, f, offset, CentralHeader(c, f, offset), 0)
  {
    CentralTo16Fields(c, f);
    CentralTo28Fields(c, f);
    CentralHeaderReads(c, f, offset);
    hide CentralTo16, CentralTo28;
    var a, h := CentralTo28(c, f), CentralHeader(c, f, offset);
    assert h[0..28] == a;
    Within(h, 0, a);
    assert h[30..42] == Zeros(12);
    Within(h, 30, Zeros(12));
    ZerosRead();
    hide U16, U32, CentralHeader;
    assert U32(h, 30 + 0) == Ok(0) && U32(h, 30 + 4) == Ok(0) && U32(h, 30 + 8) == Ok(0);
  }

  lemma ZerosRead()
    ensures U32(Zeros(12), 0) == Ok(0) && U32(Zeros(12), 4) == Ok(0) && U32(Zeros(12), 8) == Ok(0)
  {
  }

  /** Where each file's two headers are, and every field they hold. */
  lemma FieldsInPlace(c: Codec, files: seq<File>, k: nat)
    requires Fits(c, files) && k < |files|
    ensures var z := Archive(c, files);
            && LocalHolds(c, files[k], z, LocalsSize(c, files[..k]))
            && CentralHolds(c, files[k], LocalsSize(c, files[..k]), z,
                            LocalsSize(c, files) + DirectorySize(c, files[..k]))
  {
    hide LocalHeader, CentralHeader, Archive, FilesFit, LocalsSize, DirectorySize, U16, U32, Data, Fits;
    var f, z, local := files[k], Archive(c, files), LocalsSize(c, files[..k]);
    var central := LocalsSize(c, files) + DirectorySize(c, files[..k]);
    EntryInArchive(c, files, k);
    LocalFields(c, f);
    CentralFields(c, f, local);
    var l, h := LocalHeader(c, f), CentralHeader(c, f, local);
    assert z[local..local + 30] == z[local..local + LocalSize(c, f)][..30] == l;
    assert z[central..central + 46] == z[central..central + 46 + |c.utf8(f.name)|][..46] == h;
    Within(z, local, l);
    Within(z, central, h);
    hide EntryIn;
    LocalMoves(c, f, l, z, local);
    CentralMoves(c, f, local, h, z, central);
  }

  lemma LocalMoves(c: Codec, f: File, l: seq<byte>, z: seq<byte>, local: nat)
    requires |l| == 30 && LocalHolds(c, f, l, 0)
    requires forall k: nat :: k + 2 <= 30 ==> U16(z, local + k) == U16(l, k)
    requires forall k: nat :: k + 4 <= 30 ==> U32(z, local + k) == U32(l, k)
    ensures LocalHolds(c, f, z, local)
  {
    hide U16, U32;
    assert U32(z, local + 0) == U32(l, 0);
  }

  lemma CentralMoves(c: Codec, f: File, offset: nat, h: seq<byte>, z: seq<byte>, central: nat)
    requires |h| == 46 && CentralHolds(c, f, offset, h, 0)
    requires forall k: nat :: k + 2 <= 46 ==> U16(z, central + k) == U16(h, k)
    requires forall k: nat :: k + 4 <= 46 ==> U32(z, central + k) == U32(h, k)
    ensures CentralHolds(c, f, offset, z, central)
  {
    hide U16, U32;
    assert U32(z, central + 0) == U32(h, 0);
  }

  /** Section 4.3.16: one disk, all entries on it, the directory's size and place, no comment. */
  lemma EndInPlace(c: Codec, files: seq<File>)
    requires Fits(c, files)
    ensures var z := Archive(c, files);
            var end := |z| - 22;
            && end == LocalsSize(c, files) + DirectorySize(c, files)
            && U32(z, end) == Ok(0x06054b50) && U32(z, end + 4) == Ok(0)
            && U16(z, end + 8) == Ok(|files|) && U16(z, end + 10) == Ok(|files|)
            && U32(z, end + 12) == Ok(DirectorySize(c, files)) && U32(z, end + 16) == Ok(LocalsSize(c, files))
            && U16(z, end + 20) == Ok(0)
  {
    hide Locals, Directory, FilesFit, LocalsSize, DirectorySize, EndRecord;
    var z, count := Archive(c, files), |files|;
    var directory, offset := DirectorySize(c, files), LocalsSize(c, files);
    var e, end := EndRecord(count, directory, offset), |z| - 22;
    SliceOfSuffix(Locals(c, files) + Directory(c, files), e, 0, 22);
    EndFields(count, directory, offset);
    Within(z, end, e);
    hide U16, U32, Archive;
    assert U32(z, end + 0) == U32(e, 0) && U32(z, end + 4) == U32(e, 4) && U16(z, end + 8) == U16(e, 8);
    assert U16(z, end + 10) == U16(e, 10) && U32(z, end + 12) == U32(e, 12) && U32(z, end + 16) == U32(e, 16);
    assert U16(z, end + 20) == U16(e, 20);
  }

  lemma EndFields(count: nat, directory: nat, offset: nat)
    requires count < 0x1_0000 && directory < 0x1_0000_0000 && offset < 0x1_0000_0000
    ensures var e := EndRecord(count, directory, offset);
            && U32(e, 0) == Ok(0x06054b50) && U32(e, 4) == Ok(0) && U16(e, 8) == Ok(count) && U16(e, 10) == Ok(count)
            && U32(e, 12) == Ok(directory) && U32(e, 16) == Ok(offset) && U16(e, 20) == Ok(0)
  {
    EndRecordReads(count, directory, offset);
    var e, a := EndRecord(count, directory, offset), LE32(EOCD) + Zeros(4);
    assert e == a + LE16(count) + e[10..];
    LE16Reads(a, count, e[10..]);
    assert e == (a + LE16(count) + LE16(count)) + LE32(directory) + (LE32(offset) + Zeros(2));
    LE32Reads(a + LE16(count) + LE16(count), directory, LE32(offset) + Zeros(2));
    assert e[4] == e[5] == e[6] == e[7] == 0 && e[20] == e[21] == 0;
  }
}
