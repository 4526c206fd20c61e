/** Little-endian fields of a byte buffer, as Node's Buffer reads and writes them. */
module Bytes {
  import opened Wrappers

  type byte = b: int | 0 <= b < 0x100

  datatype RangeError = RangeError

  function LE16(v: int): seq<byte>
    requires 0 <= v < 0x1_0000
  {
    [v % 0x100, v / 0x100]
  }

  function LE32(v: int): seq<byte>
    requires 0 <= v < 0x1_0000_0000
  {
    [v % 0x100, v / 0x100 % 0x100, v / 0x1_0000 % 0x100, v / 0x100_0000]
  }

  /** readUInt16LE: throws past the end of the buffer. */
  function U16(b: seq<byte>, at: int): (r: Result<int, RangeError>)
    ensures r.Ok? ==> 0 <= r.value < 0x1_0000
  {
    if 0 <= at <= |b| - 2 then
      var b0: int, b1: int := b[at], b[at + 1];
      Ok(b0 + 0x100 * b1)
    else
      Err(RangeError)
  }

  /** readUInt32LE: throws past the end of the buffer. */
  function U32(b: seq<byte>, at: int): (r: Result<int, RangeError>)
    ensures r.Ok? ==> 0 <= r.value < 0x1_0000_0000
  {
    if 0 <= at <= |b| - 4 then
      var b0: int, b1: int, b2: int, b3: int := b[at], b[at + 1], b[at + 2], b[at + 3];
      Ok(b0 + 0x100 * b1 + 0x1_0000 * b2 + 0x100_0000 * b3)
    else
      Err(RangeError)
  }

  /** The low byte comes first: the `PK` that the signatures of a ZIP archive start with. */
  lemma LowByteFirst()
    ensures LE16(0x4b50) == [0x50, 0x4b] && LE32(0x06054b50) == [0x50, 0x4b, 0x05, 0x06]
    ensures U16([0x50, 0x4b], 0) == Ok(0x4b50) && U32([0x50, 0x4b, 0x05, 0x06], 0) == Ok(0x06054b50)
  {
  }

  /** The first bytes of `a` are `written` and the rest are still zero. */
  ghost predicate Filled(a: array<byte>, written: seq<byte>)
    reads a
  {
    && |written| <= a.Length
    && a[..|written|] == written
    && forall i :: |written| <= i < a.Length ==> a[i] == 0
  }

  lemma LE32Value(v: int)
    requires 0 <= v < 0x1_0000_0000
    ensures v % 0x100 + 0x100 * (v / 0x100 % 0x100) + 0x1_0000 * (v / 0x1_0000 % 0x100) + 0x100_0000 * (v / 0x100_0000)
         == v
  {
  }

  /** A field reads back from where it was written, whatever is around it. */
  lemma LE16Reads(before: seq<byte>, v: int, after: seq<byte>)
    requires 0 <= v < 0x1_0000
    ensures U16(before + LE16(v) + after, |before|) == Ok(v)
  {
  }

  lemma LE32Reads(before: seq<byte>, v: int, after: seq<byte>)
    requires 0 <= v < 0x1_0000_0000
    ensures U32(before + LE32(v) + after, |before|) == Ok(v)
  {
    var b, f := before + LE32(v) + after, LE32(v);
    assert b[|before|] == f[0] && b[|before| + 1] == f[1];
    assert b[|before| + 2] == f[2] && b[|before| + 3] == f[3];
    LE32Value(v);
  }

  /** Reads inside the first part of a buffer do not see what follows it. */
  lemma ReadsInPrefix(a: seq<byte>, b: seq<byte>)
    ensures forall at :: at + 2 <= |a| ==> U16(a + b, at) == U16(a, at)
    ensures forall at :: at + 4 <= |a| ==> U32(a + b, at) == U32(a, at)
  {
  }

  function Zeros(n: nat): (r: seq<byte>)
    ensures |r| == n
  {
    seq(n, _ => 0)
  }

  /** `written`, zero bytes up to `at`, then `field`. */
  ghost function Then(written: seq<byte>, at: nat, field: seq<byte>): seq<byte>
    requires |written| <= at
  {
    if at == |written| then written + field else written + Zeros(at - |written|) + field
  }

  lemma ThenFilled(a: array<byte>, written: seq<byte>, at: nat, field: seq<byte>)
    requires |written| <= at && at + |field| <= a.Length
    requires a[..|written|] == written
    requires forall i :: |written| <= i < at ==> a[i] == 0
    requires a[at..at + |field|] == field
    requires forall i :: at + |field| <= i < a.Length ==> a[i] == 0
    ensures Filled(a, Then(written, at, field))
  {
  }

  /** writeUInt16LE into a zeroed buffer filled up to `at`: a value over 16 bits throws. */
  method WriteUInt16LE(a: array<byte>, at: nat, v: nat, ghost written: seq<byte>)
    returns (r: Result<(), RangeError>)
    requires Filled(a, written) && |written| <= at && at + 2 <= a.Length
    modifies a
    ensures r.Ok? <==> v < 0x1_0000
    ensures v < 0x1_0000 ==> Filled(a, Then(written, at, LE16(v)))
  {
    if v >= 0x1_0000 {
      return Err(RangeError);
    }
    assert a[..|written|] == written;
    a[at], a[at + 1] := v % 0x100, v / 0x100;
    assert a[..|written|] == written;
    ThenFilled(a, written, at, LE16(v));
    return Ok(());
  }

  /** writeUInt32LE into a zeroed buffer filled up to `at`: a value over 32 bits throws. */
  method WriteUInt32LE(a: array<byte>, at: nat, v: nat, ghost written: seq<byte>)
    returns (r: Result<(), RangeError>)
    requires Filled(a, written) && |written| <= at && at + 4 <= a.Length
    modifies a
    ensures r.Ok? <==> v < 0x1_0000_0000
    ensures v < 0x1_0000_0000 ==> Filled(a, Then(written, at, LE32(v)))
  {
    if v >= 0x1_0000_0000 {
      return Err(RangeError);
    }
    assert a[..|written|] == written;
    a[at], a[at + 1], a[at + 2], a[at + 3] :=
      v % 0x100, v / 0x100 % 0x100, v / 0x1_0000 % 0x100, v / 0x100_0000;
    assert a[..|written|] == written;
    ThenFilled(a, written, at, LE32(v));
    return Ok(());
  }
}
