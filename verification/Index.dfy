/**
  The offset index of a segment (broker/storage/index.go): a file of 8-byte entries, each a
  32-bit relative offset and a 32-bit byte position, searched by binary search.
 */
module OffsetIndex {
  import opened Bytes
  import opened Files
  import opened Framing
  import opened Record

  // ---------- entries as bytes ----------

  /** An entry as Write stores it: both numbers are cut to 32 bits. */
  function Entry(rel: nat, pos: nat): (b: bytes)
    ensures |b| == 8
  {
    Put32(rel % B32) + Put32(pos % B32)
  }

  function RelAt(m: bytes, i: nat): uint32
    requires 8 * i + 8 <= |m|
  {
    Get32(m[8 * i..8 * i + 4])
  }

  function PosAt(m: bytes, i: nat): uint32
    requires 8 * i + 8 <= |m|
  {
    Get32(m[8 * i + 4..8 * i + 8])
  }

  /** Strictly increasing relative offsets. */
  ghost predicate Increasing(m: bytes) {
    forall i, j :: 0 <= i < j && 8 * j + 8 <= |m| ==> RelAt(m, i) < RelAt(m, j)
  }

  // ---------- search ----------

  /** The position a scan backwards over the first n entries stops at. */
  ghost function LinearLookup(m: bytes, n: nat, rel: uint32): (pos: uint32)
    requires 8 * n <= |m|
  {
    if n == 0 then 0
    else if RelAt(m, n - 1) <= rel then PosAt(m, n - 1)
    else LinearLookup(m, n - 1, rel)
  }

  /** Entries above the target can be dropped from the end of a linear search. */
  lemma {:induction false} DropAbove(m: bytes, k: nat, n: nat, rel: uint32)
    requires k <= n && 8 * n <= |m|
    requires forall i :: k <= i < n ==> rel < RelAt(m, i)
    ensures LinearLookup(m, n, rel) == LinearLookup(m, k, rel)
  {
    hide RelAt, PosAt;
    if k < n {
      DropAbove(m, k, n - 1, rel);
    }
  }

  /** The binary search of Lookup over the mapped bytes. */
  method BinarySearch(m: bytes, rel: uint32) returns (best: uint32)
    requires Increasing(m)
    ensures best == LinearLookup(m, |m| / 8, rel)
  {
    hide LinearLookup, RelAt, PosAt;
    var n := |m| / 8;
    var low, high := 0, n - 1;
    best := 0;
    while low <= high
      invariant 0 <= low <= high + 1 <= n
      invariant forall i :: high < i < n ==> rel < RelAt(m, i)
      invariant low > 0 ==> RelAt(m, low - 1) <= rel
      invariant best == if low == 0 then 0 else PosAt(m, low - 1)
      decreases high - low + 1
    {
      var mid := low + (high - low) / 2;
      if RelAt(m, mid) <= rel {
        best := PosAt(m, mid);
        low := mid + 1;
      } else {
        high := mid - 1;
      }
    }
    DropAbove(m, low, n, rel);
    LookupTop(m, low, rel);
  }

  lemma LookupTop(m: bytes, n: nat, rel: uint32)
    requires 8 * n <= |m| && (n > 0 ==> RelAt(m, n - 1) <= rel)
    ensures LinearLookup(m, n, rel) == if n == 0 then 0 else PosAt(m, n - 1)
  {
  }

  /** The linear search finds the last entry at or below the target... */
  lemma LastAtOrBelow(m: bytes, n: nat, rel: uint32, i: nat)
    requires i < n && 8 * n <= |m|
    requires RelAt(m, i) <= rel && forall j :: i < j < n ==> rel < RelAt(m, j)
    ensures LinearLookup(m, n, rel) == PosAt(m, i)
  {
    hide RelAt, PosAt, LinearLookup;
    DropAbove(m, i + 1, n, rel);
    LookupTop(m, i + 1, rel);
  }

  /** ... and gives position 0 if there is none. */
  lemma NoneAtOrBelow(m: bytes, n: nat, rel: uint32)
    requires 8 * n <= |m| && forall i :: 0 <= i < n ==> rel < RelAt(m, i)
    ensures LinearLookup(m, n, rel) == 0
  {
    hide RelAt, PosAt, LinearLookup;
    DropAbove(m, 0, n, rel);
    LookupTop(m, 0, rel);
  }

  // ---------- the index of a segment ----------

  /** The entries Append has written for the records from number k on. */
  ghost function Entries(ps: seq<Payload>, k: nat): (b: bytes)
    ensures |b| == 8 * (if |ps| <= k then 0 else |ps| - k)
  {
    if |ps| <= k then []
    else Entries(ps[..|ps| - 1], k) + Entry(|ps| - 1, Pos(ps, |ps| - 1))
  }

  /** Every record lies at a position that 32 bits can hold. */
  ghost predicate Addressable(ps: seq<Payload>) {
    forall j :: 0 <= j < |ps| ==> Pos(ps, j) < B32
  }

  lemma EntriesSnoc(ps: seq<Payload>, p: Payload, k: nat)
    requires k <= |ps|
    ensures Entries(ps + [p], k) == Entries(ps, k) + Entry(|ps|, |Frames(ps)|)
  {
    assert (ps + [p])[..|ps|] == ps;
  }

  lemma EntryFields(m: bytes, i: nat, rel: uint32, pos: uint32)
    requires |m| == 8 * i
    ensures RelAt(m + Entry(rel, pos), i) == rel && PosAt(m + Entry(rel, pos), i) == pos
  {
    hide Put32, Get32;
    SliceAt(m, Put32(rel), Put32(pos), m + Entry(rel, pos));
    GetPut32(rel);
    GetPut32(pos);
  }

  /** An entry keeps its numbers exactly if both fit 32 bits. */
  lemma EntryExact(rel: nat, pos: nat)
    ensures RelAt(Entry(rel, pos), 0) == rel && PosAt(Entry(rel, pos), 0) == pos
       <==> rel < B32 && pos < B32
  {
    hide Put32, Get32, RelAt, PosAt;
    var e := Entry(rel, pos);
    EntryFields([], 0, rel % B32, pos % B32);
    assert [] + Entry(rel % B32, pos % B32) == e;
  }

  lemma EarlierEntry(m: bytes, w: bytes, i: nat)
    requires 8 * i + 8 <= |m|
    ensures RelAt(m + w, i) == RelAt(m, i) && PosAt(m + w, i) == PosAt(m, i)
  {
    hide Get32;
    PrefixSlice(m, m + w, 8 * i, 8 * i + 4);
    PrefixSlice(m, m + w, 8 * i + 4, 8 * i + 8);
  }

  /** Nothing is lost in the narrowing to 32 bits: entry i is the true offset and position. */
  lemma {:induction false} EntryAt(ps: seq<Payload>, k: nat, i: nat)
    requires Addressable(ps) && k + i < |ps|
    ensures RelAt(Entries(ps, k), i) == k + i
    ensures PosAt(Entries(ps, k), i) == Pos(ps, k + i)
  {
    hide RelAt, PosAt, Entry, Frames;
    var n := |ps| - 1;
    var q := ps[..n];
    forall j | 0 <= j < |q|
      ensures Pos(q, j) == Pos(ps, j)
    {
      assert q[..j] == ps[..j];
    }
    if k + i < n {
      EntryAt(q, k, i);
      EarlierEntry(Entries(q, k), Entry(n, Pos(ps, n)), i);
    } else {
      PosGap(ps, 0, n);
      EntryFields(Entries(q, k), i, n, Pos(ps, n));
    }
  }

  lemma EntriesIncrease(ps: seq<Payload>, k: nat)
    requires Addressable(ps)
    ensures Increasing(Entries(ps, k))
  {
    hide RelAt, Entries;
    var m := Entries(ps, k);
    forall i, j | 0 <= i < j && 8 * j + 8 <= |m|
      ensures RelAt(m, i) < RelAt(m, j)
    {
      EntryAt(ps, k, i);
      EntryAt(ps, k, j);
    }
  }

  /** Looking up a record gives its position if it is indexed and 0 if it is not. */
  lemma LookupEntry(ps: seq<Payload>, k: nat, t: uint32)
    requires Addressable(ps) && t < |ps|
    ensures var m := Entries(ps, k);
            LinearLookup(m, |m| / 8, t) == if t < k then 0 else Pos(ps, t)
  {
    hide RelAt, PosAt, Entries, LinearLookup;
    var m := Entries(ps, k);
    var n := |m| / 8;
    forall i | 0 <= i < n
      ensures RelAt(m, i) == k + i && PosAt(m, i) == Pos(ps, k + i)
    {
      EntryAt(ps, k, i);
    }
    if t < k {
      NoneAtOrBelow(m, n, t);
    } else {
      LastAtOrBelow(m, n, t, t - k);
    }
  }

  // ---------- the index object ----------

  class Index {
    const file: File
    const baseOffset: uint64
    var mmap: bytes
    var size: nat

    /** The mapping is the whole file. */
    ghost predicate Valid()
      reads this, file.dir
    {
      file.name in file.dir.files && mmap == file.dir.files[file.name] && size == |mmap|
    }

    /** NewIndex. */
    constructor Open(dir: Directory, name: string, baseOffset: uint64)
      modifies dir
      ensures Valid() && fresh(file)
      ensures file.dir == dir && file.name == name && this.baseOffset == baseOffset
      ensures dir.files == Created(old(dir.files), name)
    {
      var f := new File.Open(dir, name);
      this.file := f;
      this.baseOffset := baseOffset;
      this.mmap := f.Contents();
      this.size := |f.Contents()|;
    }

    method Write(offset: uint64, position: uint64)
      requires Valid()
      modifies `mmap, `size, file.dir
      ensures Valid()
      ensures file.dir.files
           == old(file.dir.files)[file.name := old(mmap) + Entry((offset - baseOffset) % B64, position)]
    {
      hide Put32, Fit;
      var relOffset := ((offset - baseOffset) % B64) % B32;
      var pos := position % B32;
      ghost var before := mmap;
      file.WriteAt(Put32(relOffset) + Put32(pos), size);
      assert Overlay(before, |before|, Put32(relOffset) + Put32(pos))
          == before + (Put32(relOffset) + Put32(pos));
      size := size + 8;
      mmap := file.Contents();
    }

    method Lookup(targetOffset: uint64) returns (pos: uint64)
      requires Valid() && Increasing(mmap)
      ensures pos == if targetOffset < baseOffset then 0
                     else LinearLookup(mmap, |mmap| / 8, (targetOffset - baseOffset) % B32)
    {
      if |mmap| == 0 || targetOffset < baseOffset {
        return 0;
      }
      pos := BinarySearch(mmap, (targetOffset - baseOffset) % B32);
    }
  }
}
