/**
  Fixed-width integers as Go has them, their big-endian byte form (encoding/binary's
  BigEndian), and the slice and copy operations the encoders are written with.
 */
module Bytes {
  const B16: int := 0x1_0000
  const B32: int := 0x1_0000_0000
  const B64: int := 0x1_0000_0000_0000_0000

  type byte = b: int | 0 <= b < 0x100
  type bytes = seq<byte>
  type uint16 = v: int | 0 <= v < 0x1_0000
  type uint32 = v: int | 0 <= v < 0x1_0000_0000
  type uint64 = v: int | 0 <= v < 0x1_0000_0000_0000_0000
  type int32 = v: int | -0x8000_0000 <= v < 0x8000_0000
  type int64 = v: int | -0x8000_0000_0000_0000 <= v < 0x8000_0000_0000_0000

  // ---------- two's complement conversions ----------

  function Unsigned64(v: int64): (u: uint64) {
    if v < 0 then v + B64 else v
  }

  function Signed64(u: uint64): (v: int64) {
    if u < 0x8000_0000_0000_0000 then u else u - B64
  }

  function Unsigned32(v: int32): (u: uint32) {
    if v < 0 then v + B32 else v
  }

  function Signed32(u: uint32): (v: int32) {
    if u < 0x8000_0000 then u else u - B32
  }

  // ---------- big-endian integers ----------

  function Put16(v: uint16): (r: bytes)
    ensures |r| == 2
  {
    [v / 0x100, v % 0x100]
  }

  function Get16(b: bytes): (v: uint16)
    requires |b| == 2
  {
    var hi: int, lo: int := b[0], b[1];
    hi * 0x100 + lo
  }

  function Put32(v: uint32): (r: bytes)
    ensures |r| == 4
  {
    Put16(v / B16) + Put16(v % B16)
  }

  function Get32(b: bytes): (v: uint32)
    requires |b| == 4
  {
    var hi: int, lo: int := Get16(b[..2]), Get16(b[2..]);
    hi * B16 + lo
  }

  function Put64(v: uint64): (r: bytes)
    ensures |r| == 8
  {
    Put32(v / B32) + Put32(v % B32)
  }

  function Get64(b: bytes): (v: uint64)
    requires |b| == 8
  {
    var hi: int, lo: int := Get32(b[..4]), Get32(b[4..]);
    hi * B32 + lo
  }

  /** The number that bytes stand for, the first one counting most. */
  function BigEndian(b: bytes): nat {
    if b == [] then 0
    else
      var low: int := b[|b| - 1];
      BigEndian(b[..|b| - 1]) * 0x100 + low
  }

  lemma BigEndian2(b: bytes)
    requires |b| == 2
    ensures Get16(b) == BigEndian(b)
  {
    assert BigEndian(b[..1]) == BigEndian(b[..1][..0]) * 0x100 + b[0];
    assert b[..1][..0] == [];
  }

  lemma BigEndian4(b: bytes)
    requires |b| == 4
    ensures Get32(b) == BigEndian(b)
  {
    BigEndian2(b[..2]);
    BigEndian2(b[2..]);
    assert b[..3][..2] == b[..2];
  }

  /** The integers on disk and on the wire are big-endian. */
  lemma BigEndian8(b: bytes)
    requires |b| == 8
    ensures Get64(b) == BigEndian(b)
  {
    hide Get32;
    BigEndian4(b[..4]);
    BigEndian4(b[4..]);
    BigEndianJoin(b[..4], b[4..]);
    assert b == b[..4] + b[4..];
  }

  lemma BigEndianSnoc(a: bytes, x: byte)
    ensures var low: int := x; BigEndian(a + [x]) == BigEndian(a) * 0x100 + low
  {
    assert (a + [x])[..|a|] == a;
  }

  lemma BigEndianJoin(a: bytes, b: bytes)
    requires |b| == 4
    ensures BigEndian(a + b) == BigEndian(a) * B32 + BigEndian(b)
  {
    hide BigEndian;
    BigEndianSnoc(a, b[0]);
    BigEndianSnoc(a + [b[0]], b[1]);
    BigEndianSnoc(a + [b[0]] + [b[1]], b[2]);
    BigEndianSnoc(a + [b[0]] + [b[1]] + [b[2]], b[3]);
    assert a + [b[0]] + [b[1]] + [b[2]] + [b[3]] == a + b;
    BigEndianSnoc([], b[0]);
    BigEndianSnoc([b[0]], b[1]);
    BigEndianSnoc([b[0]] + [b[1]], b[2]);
    BigEndianSnoc([b[0]] + [b[1]] + [b[2]], b[3]);
    assert [b[0]] + [b[1]] + [b[2]] + [b[3]] == b && [] + [b[0]] == [b[0]];
    NoBytes();
  }

  lemma NoBytes()
    ensures BigEndian([]) == 0
  {
  }

  lemma GetPut16(v: uint16)
    ensures Get16(Put16(v)) == v
  {
  }

  lemma GetPut32(v: uint32)
    ensures Get32(Put32(v)) == v
  {
    assert Put32(v)[..2] == Put16(v / B16) && Put32(v)[2..] == Put16(v % B16);
  }

  lemma GetPut64(v: uint64)
    ensures Get64(Put64(v)) == v
  {
    GetPut32(v / B32);
    GetPut32(v % B32);
    assert Put64(v)[..4] == Put32(v / B32) && Put64(v)[4..] == Put32(v % B32);
  }

  lemma PutGet16(b: bytes)
    requires |b| == 2
    ensures Put16(Get16(b)) == b
  {
  }

  lemma PutGet32(b: bytes)
    requires |b| == 4
    ensures Put32(Get32(b)) == b
  {
    PutGet16(b[..2]);
    PutGet16(b[2..]);
    assert b == b[..2] + b[2..];
    assert Get32(b) / B16 == Get16(b[..2]) && Get32(b) % B16 == Get16(b[2..]);
  }

  lemma PutGet64(b: bytes)
    requires |b| == 8
    ensures Put64(Get64(b)) == b
  {
    PutGet32(b[..4]);
    PutGet32(b[4..]);
    assert b == b[..4] + b[4..];
    assert Get64(b) / B32 == Get32(b[..4]) && Get64(b) % B32 == Get32(b[4..]);
  }

  // ---------- slices ----------

  /** Whether Go's slice expression s[lo:hi] stays in range for a slice of n bytes. */
  predicate InRange(lo: int, hi: int, n: int) {
    0 <= lo <= hi <= n
  }

  function Zeros(n: nat): (r: bytes)
    ensures |r| == n
    ensures forall i :: 0 <= i < n ==> r[i] == 0
  {
    seq(n, _ => 0)
  }

  /** What a fresh n-byte slice holds after copy(dst, src): a cut or zero-padded src. */
  function Fit(src: bytes, n: nat): (r: bytes)
    ensures |r| == n
    ensures n == |src| ==> r == src
  {
    if n <= |src| then src[..n] else src + Zeros(n - |src|)
  }

  lemma FitPads(src: bytes, n: nat)
    ensures Fit(src, |src| + n) == src + Zeros(n)
  {
  }

  /** Copying as much of src as there is room for, behind w in a zeroed buffer. */
  lemma FilledTail(w: bytes, src: bytes, room: nat)
    ensures var head := if |src| <= room then src else src[..room];
            w + head + Zeros(room - |head|) == w + Fit(src, room)
  {
  }

  /** The five parts of a five-part concatenation. */
  lemma FiveParts(a: bytes, b: bytes, c: bytes, d: bytes, e: bytes)
    ensures var p := a + b + c + d + e;
            && p[..|a|] == a
            && p[|a|..|a| + |b|] == b
            && p[|a| + |b|..|a| + |b| + |c|] == c
            && p[|a| + |b| + |c|..|a| + |b| + |c| + |d|] == d
            && p[|a| + |b| + |c| + |d|..] == e
  {
  }

  lemma SixParts(a: bytes, b: bytes, c: bytes, d: bytes, e: bytes, f: bytes)
    ensures a + b + c + d + e + f == a + (b + c + d + e + f)
  {
  }

  /** Two bytes sequences with a common extension agree up to the shorter length. */
  lemma PrefixSlice(p: bytes, s: bytes, lo: nat, hi: nat)
    requires p <= s && lo <= hi <= |p|
    ensures s[lo..hi] == p[lo..hi]
  {
  }

  /** Whether the buffer holds the bytes written so far and is otherwise still zero. */
  ghost predicate Filled(buf: array<byte>, written: bytes)
    reads buf
  {
    |written| <= buf.Length && buf[..] == written + Zeros(buf.Length - |written|)
  }

  lemma FilledStart(buf: array<byte>)
    requires forall i :: 0 <= i < buf.Length ==> buf[i] == 0
    ensures Filled(buf, [])
  {
  }

  lemma FilledWhole(buf: array<byte>, written: bytes)
    requires Filled(buf, written) && |written| == buf.Length
    ensures buf[..] == written
  {
  }

  /** Copies src into the buffer behind what is written: PutUint16/32/64 and copy. */
  method Emit(buf: array<byte>, at: nat, src: bytes, ghost written: bytes)
    requires Filled(buf, written) && at == |written| && at + |src| <= buf.Length
    modifies buf
    ensures Filled(buf, written + src)
  {
    for i := 0 to |src|
      invariant forall j :: 0 <= j < at ==> buf[j] == written[j]
      invariant forall j :: 0 <= j < i ==> buf[at + j] == src[j]
      invariant forall j :: at + i <= j < buf.Length ==> buf[j] == 0
    {
      buf[at + i] := src[i];
    }
  }
}
