/**
  The bytes of a segment file as a sequence of length-prefixed payloads, the byte position
  of each record, and the recovery scan that counts records by hopping length prefixes
  (broker/storage/segment.go, NewSegment).
 */
module Framing {
  import opened Bytes
  import opened Outcomes
  import opened Record

  ghost function Frames(ps: seq<Payload>): (b: bytes) {
    if ps == [] then [] else Frames(ps[..|ps| - 1]) + Frame(ps[|ps| - 1])
  }

  /** The byte position of record j, or the end of the file for j == |ps|. */
  ghost function Pos(ps: seq<Payload>, j: nat): (pos: nat)
    requires j <= |ps|
  {
    |Frames(ps[..j])|
  }

  lemma FramesSnoc(ps: seq<Payload>, p: Payload)
    ensures Frames(ps + [p]) == Frames(ps) + Frame(p)
  {
    assert (ps + [p])[..|ps|] == ps;
  }

  lemma {:induction false} FramesPrefix(ps: seq<Payload>, j: nat)
    requires j <= |ps|
    ensures Frames(ps[..j]) <= Frames(ps)
    ensures 18 * (|ps| - j) <= |Frames(ps)| - Pos(ps, j)
  {
    if j == |ps| {
      assert ps[..j] == ps;
    } else {
      var q := ps[..|ps| - 1];
      FramesPrefix(q, j);
      assert q[..j] == ps[..j];
    }
  }

  /** Where record j lies: its prefix at Pos(j), its payload behind that, then record j + 1. */
  lemma FrameAt(ps: seq<Payload>, j: nat)
    requires j < |ps|
    ensures var b, pos := Frames(ps), Pos(ps, j);
            && Pos(ps, j + 1) == pos + 4 + |ps[j]| <= |b|
            && b[pos..pos + 4] == Put32(|ps[j]|)
            && b[pos + 4..pos + 4 + |ps[j]|] == ps[j]
  {
    hide Put32, Frames;
    FramesPrefix(ps, j + 1);
    FramesSnoc(ps[..j], ps[j]);
    assert ps[..j] + [ps[j]] == ps[..j + 1];
    SliceAt(Frames(ps[..j]), Put32(|ps[j]|), ps[j], Frames(ps));
  }

  lemma SliceAt(a: bytes, b: bytes, c: bytes, s: bytes)
    requires a + (b + c) <= s
    ensures s[|a|..|a| + |b|] == b
    ensures s[|a| + |b|..|a| + |b| + |c|] == c
  {
    assert s[..|a| + |b| + |c|] == a + (b + c);
  }

  /** Positions grow by at least the 18 bytes of an empty record. */
  lemma PosGap(ps: seq<Payload>, i: nat, j: nat)
    requires i <= j <= |ps|
    ensures Pos(ps, i) + 18 * (j - i) <= Pos(ps, j) <= |Frames(ps)|
    ensures Pos(ps, 0) == 0
  {
    FramesPrefix(ps, j);
    FramesPrefix(ps[..j], i);
    assert ps[..j][..i] == ps[..i];
  }

  /** Positions of earlier records do not change when a record is appended. */
  lemma PosSnoc(ps: seq<Payload>, p: Payload, j: nat)
    requires j <= |ps|
    ensures Pos(ps + [p], j) == Pos(ps, j)
  {
    assert (ps + [p])[..j] == ps[..j];
  }

  /** The payloads a linear scan from pos finds, reading prefix after prefix. */
  ghost function Scan(b: bytes, pos: nat): seq<bytes>
    decreases |b| - pos
  {
    if pos + 4 > |b| || pos + 4 + Get32(b[pos..pos + 4]) > |b| then []
    else
      var end := pos + 4 + Get32(b[pos..pos + 4]);
      [b[pos + 4..end]] + Scan(b, end)
  }

  /** Concatenated records parse back to exactly the payloads that were written. */
  lemma ScanFrames(ps: seq<Payload>)
    ensures Scan(Frames(ps), 0) == ps
  {
    ScanFrom(ps, 0);
    assert ps[..0] == [];
  }

  lemma {:induction false} ScanFrom(ps: seq<Payload>, j: nat)
    requires j <= |ps|
    ensures Scan(Frames(ps), Pos(ps, j)) == ps[j..]
    decreases |ps| - j
  {
    hide Put32, Get32, Frames;
    if j < |ps| {
      FrameAt(ps, j);
      GetPut32(|ps[j]|);
      ScanFrom(ps, j + 1);
    } else {
      assert ps[..j] == ps;
    }
  }

  // ---------- recovery ----------

  /** The number of hops over length prefixes from pos to the end of the file. */
  ghost function Hops(b: bytes, pos: nat): (r: Outcome<nat>)
    ensures r.Ok? || r == Err(UnexpectedEOF)
    decreases |b| - pos
  {
    if pos >= |b| then Ok(0)
    else if |b| - pos < 4 then Err(UnexpectedEOF)
    else
      match Hops(b, pos + 4 + Get32(b[pos..pos + 4]))
      case Ok(n) => Ok(n + 1)
      case other => other
  }

  /** What scanning from pos adds to the records already counted. */
  function Plus(n: nat, r: Outcome<nat>): Outcome<nat> {
    match r
    case Ok(m) => Ok(n + m)
    case other => other
  }

  /** The records that lie completely within the first c bytes. */
  ghost function Complete(ps: seq<Payload>, c: nat): (j: nat)
    ensures j <= |ps| && (c >= |Frames(ps)| ==> j == |ps|)
    ensures Pos(ps, j) <= c && (j < |ps| ==> c < Pos(ps, j + 1))
  {
    if c >= |Frames(ps)| then
      assert ps[..|ps|] == ps;
      |ps|
    else
      var q := ps[..|ps| - 1];
      var j := Complete(q, c);
      assert q[..j] == ps[..j] && (j < |q| ==> q[..j + 1] == ps[..j + 1]);
      assert j == |q| ==> ps[..j + 1] == ps;
      j
  }

  lemma HopOnce(b: bytes, pos: nat, len: uint32)
    requires pos + 4 <= |b| && b[pos..pos + 4] == Put32(len)
    ensures Hops(b, pos) == Plus(1, Hops(b, pos + 4 + len))
  {
    hide Put32, Get32;
    GetPut32(len);
  }

  /** What recovery makes of a segment file cut after c bytes. */
  ghost function Recovered(ps: seq<Payload>, c: nat): Outcome<nat> {
    var j := Complete(ps, c);
    if c == Pos(ps, j) then Ok(j)
    else if c - Pos(ps, j) < 4 then Err(UnexpectedEOF)
    else Ok(j + 1)
  }

  /**
    Recovering a segment cut after c bytes. With r bytes left behind the last complete
    record, the scan is exact for r == 0, fails for 1 <= r <= 3, and counts the torn record
    as a whole one for r >= 4.
   */
  lemma RecoverPrefix(ps: seq<Payload>, c: nat)
    requires c <= |Frames(ps)|
    ensures Hops(Frames(ps)[..c], 0) == Recovered(ps, c)
  {
    HopsFrom(ps, c, 0);
    assert ps[..0] == [];
  }

  lemma {:induction false} HopsFrom(ps: seq<Payload>, c: nat, i: nat)
    requires c <= |Frames(ps)| && i <= Complete(ps, c)
    ensures Plus(i, Hops(Frames(ps)[..c], Pos(ps, i))) == Recovered(ps, c)
    decreases |ps| - i
  {
    hide Put32, Get32, Frames, Frame, Hops;
    var b, pos := Frames(ps)[..c], Pos(ps, i);
    if i < Complete(ps, c) {
      PosGap(ps, i + 1, Complete(ps, c));
    }
    if i < |ps| && pos + 4 <= c {
      FrameAt(ps, i);
      PrefixSlice(b, Frames(ps), pos, pos + 4);
      HopOnce(b, pos, |ps[i]|);
    }
    if i < Complete(ps, c) {
      FrameAt(ps, i);
      HopsFrom(ps, c, i + 1);
    } else {
      assert ps[..|ps|] == ps;
      HopsEnd(b, pos);
      if i < |ps| && pos + 4 <= c {
        FrameAt(ps, i);
        HopsEnd(b, Pos(ps, i + 1));
      }
    }
  }

  lemma HopsEnd(b: bytes, pos: nat)
    ensures pos >= |b| ==> Hops(b, pos) == Ok(0)
    ensures pos < |b| < pos + 4 ==> Hops(b, pos) == Err(UnexpectedEOF)
  {
  }

  /** The scan counts exactly the complete records if and only if the cut is between records. */
  lemma RecoveryExact(ps: seq<Payload>, c: nat)
    requires c <= |Frames(ps)|
    ensures Hops(Frames(ps)[..c], 0) == Ok(Complete(ps, c))
       <==> exists j :: 0 <= j <= |ps| && c == Pos(ps, j)
  {
    RecoverPrefix(ps, c);
    if j :| 0 <= j <= |ps| && c == Pos(ps, j) {
      var k := Complete(ps, c);
      if j < k {
        PosGap(ps, j, k);
      } else if k < j {
        PosGap(ps, k + 1, j);
      }
    }
  }

  /** An undamaged segment file yields the number of its records. */
  lemma RecoverWhole(ps: seq<Payload>)
    ensures Hops(Frames(ps), 0) == Ok(|ps|)
  {
    RecoverPrefix(ps, |Frames(ps)|);
    assert Frames(ps)[..|Frames(ps)|] == Frames(ps) && ps[..|ps|] == ps;
  }
}
