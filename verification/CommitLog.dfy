/**
  The commit log (broker/storage/log.go): a directory of segments that behaves as one
  append-only sequence of messages.
 */
module CommitLogs {
  import opened Bytes
  import opened Outcomes
  import opened Files
  import opened Record
  import opened Decimal
  import opened Segments
  import opened Chains

  ghost function States(segments: seq<Segment>): (chain: Chain)
    reads segments
    ensures |chain| == |segments|
    ensures forall i :: 0 <= i < |segments| ==> chain[i] == segments[i].State()
  {
    if segments == [] then []
    else States(segments[..|segments| - 1]) + [segments[|segments| - 1].State()]
  }

  /** The segment objects live in dir, belong to the owner and share no handle. */
  ghost predicate Separate(dir: Directory, segments: seq<Segment>, repr: set<object>) {
    && (forall i :: 0 <= i < |segments|
          ==> segments[i].dir == dir && segments[i].index.file.dir == dir
              && segments[i].Objects() <= repr)
    && (forall i, j :: 0 <= i < j < |segments| ==> segments[i].Objects() !! segments[j].Objects())
  }

  lemma SeparateSnoc(dir: Directory, segments: seq<Segment>, repr: set<object>, s: Segment)
    requires Separate(dir, segments, repr) && s.Objects() !! repr
    requires s.dir == dir && s.index.file.dir == dir
    ensures Separate(dir, segments + [s], repr + s.Objects())
  {
    var all := segments + [s];
    forall i | 0 <= i < |segments|
      ensures all[i] == segments[i]
    {
    }
  }

  lemma SeparateWider(dir: Directory, segments: seq<Segment>, repr: set<object>, wider: set<object>)
    requires Separate(dir, segments, repr) && repr <= wider
    ensures Separate(dir, segments, wider)
  {
  }

  lemma InDirectory(dir: Directory, segments: seq<Segment>, repr: set<object>, i: nat)
    requires Separate(dir, segments, repr) && i < |segments|
    ensures segments[i].dir == dir && segments[i].Objects() <= repr
  {
  }

  /** Changing other files of the directory leaves a segment valid. */
  twostate lemma StillValid(s: Segment)
    requires old(s.Valid()) && unchanged(s) && unchanged(s.index)
    requires SameFile(old(s.dir.files), s.dir.files, s.file.name)
    requires SameFile(old(s.dir.files), s.dir.files, s.index.file.name)
    ensures s.Valid()
  {
    hide SegState.Ok, LogName, IndexName;
  }

  class CommitLog {
    const dir: Directory
    const maxSegmentBytes: int
    var segments: seq<Segment>
    var activeSegment: Segment
    ghost var Repr: set<object>

    ghost predicate Valid()
      reads this, Repr
    {
      && this in Repr && dir in Repr
      && Separate(dir, segments, Repr)
      && (forall i :: 0 <= i < |segments| ==> segments[i].Valid())
      && ChainOk(States(segments), maxSegmentBytes)
      && NoStrays(dir.files, States(segments))
      && segments != [] && activeSegment == segments[|segments| - 1]
    }

    ghost function Chain(): Chain
      reads this, segments
    {
      States(segments)
    }

    /** The abstract log: one payload per message, oldest first. */
    ghost function Log(): seq<Payload>
      reads this, segments
    {
      Contents(Chain())
    }

    ghost function Oldest(): nat
      requires segments != []
      reads this, segments
    {
      segments[0].baseOffset
    }

    constructor (dir: Directory, maxSegmentBytes: int, segments: seq<Segment>,
                 ghost handles: set<object>)
      requires segments != [] && Separate(dir, segments, handles)
      requires forall i :: 0 <= i < |segments| ==> segments[i].Valid()
      requires ChainOk(States(segments), maxSegmentBytes)
      requires NoStrays(dir.files, States(segments))
      ensures Valid() && Repr == {this, dir} + handles
      ensures this.dir == dir && this.maxSegmentBytes == maxSegmentBytes
      ensures this.segments == segments
    {
      hide Segment.Valid, Separate, ChainOk, NoStrays;
      this.dir, this.maxSegmentBytes := dir, maxSegmentBytes;
      this.segments, this.activeSegment := segments, segments[|segments| - 1];
      this.Repr := {this, dir} + handles;
      new;
      SeparateWider(dir, segments, handles, Repr);
    }

    /** The part of Append that opens a new segment behind a full one. */
    method Roll() returns (r: Outcome<()>)
      requires Valid() && activeSegment.IsFull(maxSegmentBytes)
      modifies this, dir
      ensures Valid() && fresh(Repr - old(Repr)) && r.Ok?
      ensures Chain() == old(Chain()) + [Opened(old(activeSegment.nextOffset))]
    {
      hide Stored, Segment.Valid, ChainOk, NoStrays, Separate, LogName, IndexName, Contents,
           SegState.Ok, SegState.Size, SegState.Next, Created, SameFile, States;
      ghost var chain := Chain();
      ghost var before, files := segments, dir.files;
      activeSegment.Facts();
      assert chain[|chain| - 1] == activeSegment.State();
      var base := activeSegment.nextOffset;
      RollFacts(dir.files, chain, maxSegmentBytes, base);
      var result := NewSegment(dir, base, Opened(base));
      match result {
        case Err(e) => return Err(e);
        case Panic => return Panic;
        case Ok(seg) =>
          SeparateSnoc(dir, before, Repr, seg);
          segments := segments + [seg];
          activeSegment := seg;
          Repr := Repr + seg.Objects();
          forall i | 0 <= i < |before|
            ensures before[i].Valid()
          {
            InDirectory(dir, before, old(Repr), i);
            CreatedSame(files, LogName(base), IndexName(base), before[i].file.name);
            CreatedSame(files, LogName(base), IndexName(base), before[i].index.file.name);
            StillValid(before[i]);
          }
          StatesSnoc(before, seg);
          return Outcome.Ok(());
      }
    }

    /** The counters of a valid log. */
    lemma Counters()
      requires Valid()
      ensures segments != [] && this in Repr && dir in Repr
      ensures Linked(Chain()) && ChainOk(Chain(), maxSegmentBytes)
      ensures activeSegment.Valid() && activeSegment.State() == Chain()[|segments| - 1]
      ensures activeSegment.nextOffset == NextOffset(Chain()) == Oldest() + |Log()|
    {
      hide Segment.Valid, SegState.Ok, NoStrays, Separate, StartsBelow, Contents;
      activeSegment.Facts();
      NextIsLength(Chain());
    }

    /** Appending to the active segment, which is not full. */
    method AppendActive(timestamp: int64, key: bytes, value: bytes) returns (r: Outcome<uint64>)
      requires Valid() && !activeSegment.IsFull(maxSegmentBytes)
      requires activeSegment.nextOffset + 1 < B64
      modifies Repr - {this}
      ensures Valid() && segments[0].baseOffset == old(segments[0].baseOffset)
      ensures Encodable(key, value)
          ==> r == Ok(old(activeSegment.nextOffset))
              && Log() == old(Log()) + [PayloadOf(timestamp, key, value)]
      ensures !Encodable(key, value) ==> r == Panic && Log() == old(Log())
    {
      hide Stored, Segment.Valid, ChainOk, NoStrays, LogName, IndexName, Contents,
           SegState.Ok, SegState.Size, SegState.Next, Encodable, PayloadOf;
      ghost var chain := Chain();
      ghost var last := |segments| - 1;
      activeSegment.Facts();
      assert chain[last] == activeSegment.State();
      LimitFits(chain, maxSegmentBytes);
      forall i | 0 <= i <= last
        ensures segments[i].file.name == LogName(chain[i].base)
                && segments[i].index.file.name == IndexName(chain[i].base)
      {
        segments[i].Facts();
      }
      r := activeSegment.Append(timestamp, key, value);
      forall i | 0 <= i < last
        ensures segments[i].Valid() && segments[i].State() == chain[i]
      {
        SegmentNamesDiffer(chain, maxSegmentBytes, i);
        StillValid(segments[i]);
      }
      StraysAppended(old(dir.files), dir.files, chain, Chain());
      if Encodable(key, value) {
        ghost var p := PayloadOf(timestamp, key, value);
        Appended(chain, maxSegmentBytes, p);
        assert Chain() == chain[last := chain[last].(payloads := chain[last].payloads + [p])];
      } else {
        assert Chain() == chain;
      }
    }

    /** Behind a full segment the rolled log stands for the same messages. */
    lemma RolledLog(chain: Chain, base: uint64)
      requires Valid() && ChainOk(chain, maxSegmentBytes)
      requires chain[|chain| - 1].Size() >= maxSegmentBytes && base == NextOffset(chain)
      requires Chain() == chain + [Opened(base)]
      ensures Log() == Contents(chain) && Oldest() == chain[0].base
      ensures !activeSegment.IsFull(maxSegmentBytes)
    {
      hide Segment.Valid, NoStrays, Separate, Contents, ChainOk, SegState.Ok, SegState.Next;
      Rolled(chain, maxSegmentBytes);
      LimitFits(chain, maxSegmentBytes);
      activeSegment.Facts();
      assert Chain()[0] == chain[0];
      assert activeSegment.State() == Opened(base);
    }

    /** The first half of Append: rolls if the active segment is full. */
    method EnsureRoom() returns (r: Outcome<()>)
      requires Valid()
      modifies this, dir
      ensures Valid() && fresh(Repr - old(Repr)) && r.Ok?
      ensures Log() == old(Log()) && Oldest() == old(Oldest())
      ensures !activeSegment.IsFull(maxSegmentBytes)
      ensures activeSegment.nextOffset == old(activeSegment.nextOffset)
    {
      hide Valid, Segment.Valid, ChainOk, Contents;
      Counters();
      ghost var chain := Chain();
      if activeSegment.IsFull(maxSegmentBytes) {
        activeSegment.Facts();
        ghost var base := activeSegment.nextOffset;
        r := Roll();
        RolledLog(chain, base);
        Counters();
      } else {
        r := Outcome.Ok(());
      }
    }

    /** CommitLog.Append. */
    method Append(timestamp: int64, key: bytes, value: bytes) returns (r: Outcome<uint64>)
      requires Valid() && Oldest() + |Log()| + 1 < B64
      modifies Repr
      ensures Valid() && fresh(Repr - old(Repr)) && Oldest() == old(Oldest())
      ensures Encodable(key, value)
          ==> r == Ok(old(Oldest() + |Log()|))
              && Log() == old(Log()) + [PayloadOf(timestamp, key, value)]
      ensures !Encodable(key, value) ==> r == Panic && Log() == old(Log())
    {
      hide Valid, Segment.Valid, Contents, Encodable, PayloadOf, Linked, ChainOk, NextOffset;
      Counters();
      var room := EnsureRoom();
      match room {
        case Err(e) => return Err(e);
        case Panic => return Panic;
        case Ok(_) => r := AppendActive(timestamp, key, value);
      }
    }

    ghost function Cursors(): set<object>
      reads this
    {
      set s | s in segments :: s.file
    }

    lemma Basics()
      requires Valid()
      ensures segments != [] && this in Repr && dir in Repr && Cursors() <= Repr
    {
      hide Segment.Valid, ChainOk, NoStrays;
    }

    /** What validity says about one segment. */
    lemma SegmentFacts(i: nat)
      requires Valid() && i < |segments|
      ensures Linked(Chain()) && Chain()[i] == segments[i].State()
      ensures segments[i].nextOffset == Chain()[i].Next()
      ensures Chain()[0].base == Oldest()
    {
      hide Segment.Valid, SegState.Ok, NoStrays, Separate, StartsBelow, Contents;
      segments[i].Facts();
    }

    /** Reading from one segment moves its cursor and nothing else. */
    method ReadSegment(i: nat, offset: uint64, maxCount: int) returns (r: Outcome<seq<Message>>)
      requires Valid() && i < |segments|
      modifies segments[i].file
      ensures Valid()
      ensures r == ReadResult(segments[i].payloads, segments[i].baseOffset, offset, maxCount)
    {
      hide Segment.Valid, ChainOk, NoStrays, Separate, ReadResult;
      r := segments[i].ReadFrom(offset, maxCount);
    }

    /** CommitLog.ReadFrom: a page of the log, whatever segments it lies in. */
    method ReadFrom(offset: uint64, maxCount: int) returns (r: Outcome<seq<Message>>)
      requires Valid()
      modifies Cursors()
      ensures Valid() && r == ReadResult(Log(), Oldest(), offset, maxCount)
    {
      hide Valid, ReadResult, ReadThrough, Linked, ChainOk, NextOffset, SegState.Next, Contents;
      Counters();
      ghost var chain := Chain();
      assert ReadResult(Log(), Oldest(), offset, maxCount) == ChainRead(chain, offset, maxCount);
      hide ChainRead;
      var result: seq<Message> := [];
      var currentOff: int := offset;
      var i := 0;
      ReadBegins(chain, offset, maxCount);
      while i < |segments| && |result| < maxCount
        invariant 0 <= i <= |segments| && Valid()
        invariant currentOff == offset + |result|
        invariant ReadThrough(chain, i, offset, maxCount, result)
        decreases |segments| - i
      {
        SegmentFacts(i);
        ReadContinues(chain, i, offset, maxCount, result);
        if segments[i].nextOffset > currentOff {
          var msgs := ReadSegment(i, currentOff, maxCount - |result|);
          match msgs {
            case Err(e) => return Err(e);
            case Panic => return Panic;
            case Ok(ms) =>
              result := result + ms;
              currentOff := currentOff + |ms|;
          }
        }
        i := i + 1;
      }
      ReadEnds(chain, i, offset, maxCount, result);
      return Outcome.Ok(result);
    }

    /** CommitLog.Read: one message, or ErrNotFound outside the log. */
    method Read(offset: uint64) returns (r: Outcome<Message>)
      requires Valid()
      modifies Cursors()
      ensures Valid() && r == ReadOne(Log(), Oldest(), offset)
    {
      hide Valid, ReadOne, Linked, ChainOk, NextOffset, SegState.Next, Contents;
      Counters();
      ghost var chain := Chain();
      var i := |segments| - 1;
      while i >= 0 && segments[i].baseOffset > offset
        invariant -1 <= i < |segments|
        invariant i < |segments| - 1 ==> offset < chain[i + 1].base
      {
        i := i - 1;
      }
      if i < 0 {
        BelowOldest(Log(), Oldest(), offset);
        return Err(NotFound);
      }
      ReadInSegment(chain, i, offset);
      r := ReadOneSegment(i, offset);
    }

    method ReadOneSegment(i: nat, offset: uint64) returns (r: Outcome<Message>)
      requires Valid() && i < |segments|
      modifies segments[i].file
      ensures Valid() && r == ReadOne(segments[i].payloads, segments[i].baseOffset, offset)
    {
      hide Segment.Valid, ChainOk, NoStrays, Separate, ReadOne;
      r := segments[i].Read(offset);
    }

    lemma BelowOldest(log: seq<Payload>, oldest: nat, offset: nat)
      requires offset < oldest
      ensures ReadOne(log, oldest, offset) == Err(NotFound)
    {
    }

    /** The offset of the newest message, and 0 for an empty log that starts at 0. */
    method NewestOffset() returns (newest: uint64)
      requires Valid()
      ensures newest == if Oldest() + |Log()| == 0 then 0 else Oldest() + |Log()| - 1
    {
      hide Valid, Contents;
      Counters();
      if activeSegment.nextOffset == 0 {
        return 0;
      }
      return activeSegment.nextOffset - 1;
    }

    method OldestOffset() returns (oldest: uint64)
      requires Valid()
      ensures oldest == Oldest()
    {
      return segments[0].baseOffset;
    }

    /** Despite its name the next offset: the number of messages only if the log starts at 0. */
    method MessageCount() returns (n: uint64)
      requires Valid()
      ensures n == Oldest() + |Log()|
    {
      hide Valid, Contents;
      Counters();
      return activeSegment.nextOffset;
    }
  }

  /** The loop of NewCommitLog over the names that Glob finds, in any order. */
  method ListBases(names: set<string>) returns (offsets: seq<int>)
    ensures forall b :: b in offsets ==> 0 <= b < B64
    ensures forall b: uint64 :: b in offsets <==> exists name :: name in names && LogBase(name) == Some(b)
    ensures Canonical(names) ==> Sorting.Distinct(offsets)
  {
    hide LogBase, LogName;
    offsets := [];
    var rest := names;
    while rest != {}
      invariant rest <= names
      invariant forall b :: b in offsets ==> 0 <= b < B64
      invariant forall b: uint64 :: b in offsets
                  <==> exists name :: name in names - rest && LogBase(name) == Some(b)
      invariant Canonical(names)
            ==> Sorting.Distinct(offsets) && forall b: uint64 :: b in offsets ==> LogName(b) !in rest
      decreases |rest|
    {
      var name :| name in rest;
      rest := rest - {name};
      match LogBase(name) {
        case None =>
        case Some(b) => offsets := offsets + [b];
      }
    }
  }

  /** Opens one more segment behind those that are open already. */
  method OpenNext(dir: Directory, segments: seq<Segment>, base: uint64, ghost repr: set<object>,
                  ghost chain: Chain)
    returns (r: Outcome<Segment>)
    requires OnDisk(dir.files, chain) && |segments| < |chain| && base == chain[|segments|].base
    requires chain[|segments|].Ok() && Separate(dir, segments, repr)
    requires forall i :: 0 <= i < |segments| ==> segments[i].Valid()
    modifies dir
    ensures OnDisk(dir.files, chain)
    ensures r.Ok? && fresh(r.value.Objects()) && r.value.Valid()
    ensures r.value.State() == chain[|segments|]
    ensures r.value.dir == dir && r.value.index.file.dir == dir
    ensures forall i :: 0 <= i < |segments| ==> segments[i].Valid()
  {
    hide Segment.Valid, OnDisk, Separate, SegState.Ok, LogName, IndexName, Stored, Created, SameFile;
    ghost var files := dir.files;
    OnDiskAt(files, chain, |segments|);
    OnDiskOpened(files, chain, |segments|);
    r := NewSegment(dir, base, chain[|segments|]);
    forall i | 0 <= i < |segments|
      ensures segments[i].Valid()
    {
      InDirectory(dir, segments, repr, i);
      CreatedSame(files, LogName(base), IndexName(base), segments[i].file.name);
      CreatedSame(files, LogName(base), IndexName(base), segments[i].index.file.name);
      StillValid(segments[i]);
    }
  }

  /** The loop of NewCommitLog that opens the segments in order of their base offsets. */
  method OpenSegments(dir: Directory, offsets: seq<int>, ghost chain: Chain)
    returns (r: Outcome<seq<Segment>>, ghost repr: set<object>)
    requires OnDisk(dir.files, chain) && offsets == Bases(chain)
    requires forall i :: 0 <= i < |chain| ==> chain[i].Ok()
    modifies dir
    ensures OnDisk(dir.files, chain)
    ensures r.Ok? && States(r.value) == chain && Separate(dir, r.value, repr) && fresh(repr)
    ensures forall i :: 0 <= i < |r.value| ==> r.value[i].Valid()
  {
    hide Segment.Valid, OnDisk, Separate, SegState.Ok, States, Segment.State, Segment.Objects;
    var segments: seq<Segment> := [];
    repr := {};
    NoneSeparate(dir);
    assert chain[..0] == [];
    var i := 0;
    while i < |offsets|
      invariant 0 <= i <= |offsets| && |segments| == i
      invariant OnDisk(dir.files, chain)
      invariant States(segments) == chain[..i] && Separate(dir, segments, repr) && fresh(repr)
      invariant forall j :: 0 <= j < i ==> segments[j].Valid()
    {
      var result := OpenNext(dir, segments, offsets[i], repr, chain);
      match result {
        case Err(e) => return Err(e), repr;
        case Panic => return Panic, repr;
        case Ok(seg) =>
          SeparateSnoc(dir, segments, repr, seg);
          StatesSnoc(segments, seg);
          assert chain[..i + 1] == chain[..i] + [chain[i]];
          segments := segments + [seg];
          repr := repr + seg.Objects();
      }
      i := i + 1;
    }
    assert chain[..i] == chain;
    return Ok(segments), repr;
  }

  lemma StatesSnoc(segments: seq<Segment>, s: Segment)
    ensures States(segments + [s]) == States(segments) + [s.State()]
  {
    assert (segments + [s])[..|segments|] == segments;
  }

  lemma NoneSeparate(dir: Directory)
    ensures Separate(dir, [], {})
  {
  }

  lemma OnDiskAt(files: map<string, bytes>, chain: Chain, i: nat)
    requires OnDisk(files, chain) && i < |chain|
    ensures Stored(files, chain[i])
  {
  }

  /**
    NewCommitLog on a directory that holds a closed log, or none. It rebuilds exactly the
    segments that are stored there; an empty directory gives one empty segment at offset 0.
   */
  method NewCommitLog(dir: Directory, maxSegmentBytes: int, ghost chain: Chain)
    returns (r: Outcome<CommitLog>)
    requires 1 <= maxSegmentBytes <= B32
    requires OnDisk(dir.files, chain) && (chain == [] || ChainOk(chain, maxSegmentBytes))
    modifies dir
    ensures r.Ok? && fresh(r.value) && r.value.Valid() && fresh(r.value.Repr - {dir})
    ensures r.value.dir == dir && r.value.maxSegmentBytes == maxSegmentBytes
    ensures r.value.Chain() == if chain == [] then [Opened(0)] else chain
  {
    hide Segment.Valid, NoStrays, OnDisk, Separate, ChainOk, Bases, LogBase, LogName, Canonical,
         SegState.Ok, Sorting.Distinct, Sorting.Sort, Sorting.IntLess, CommitLog.Valid;
    var offsets := ListBases(dir.files.Keys);
    ChainFromNames(dir.files, chain, maxSegmentBytes, offsets);
    var sorted := Sorting.Sort(offsets, Sorting.IntLess());
    var result, handles := OpenSegments(dir, sorted, chain);
    match result {
      case Err(e) => return Err(e);
      case Panic => return Panic;
      case Ok(segments) =>
        if |segments| == 0 {
          r := OpenEmpty(dir, maxSegmentBytes);
        } else {
          OnDiskNames(dir.files, chain);
          var cl := new CommitLog(dir, maxSegmentBytes, segments, handles);
          return Ok(cl);
        }
    }
  }

  /** The case of NewCommitLog without any log file. */
  method OpenEmpty(dir: Directory, maxSegmentBytes: int) returns (r: Outcome<CommitLog>)
    requires 1 <= maxSegmentBytes <= B32 && OnDisk(dir.files, [])
    modifies dir
    ensures r.Ok? && fresh(r.value) && r.value.Valid() && fresh(r.value.Repr - {dir})
    ensures r.value.dir == dir && r.value.maxSegmentBytes == maxSegmentBytes
    ensures r.value.Chain() == [Opened(0)]
  {
    hide Segment.Valid, NoStrays, Separate, SegState.Ok, LogName, IndexName, Stored, Created,
         StartsBelow, States;
    NothingStored(dir.files, 0);
    StraysRolled(dir.files, [], Opened(0));
    OpenedOk(0, maxSegmentBytes);
    var first := NewSegment(dir, 0, Opened(0));
    match first {
      case Err(e) => return Err(e);
      case Panic => return Panic;
      case Ok(seg) =>
        NoneSeparate(dir);
        SeparateSnoc(dir, [], {}, seg);
        assert States([seg]) == [Opened(0)] && [] + [seg] == [seg] && [] + [Opened(0)] == [Opened(0)];
        var cl := new CommitLog(dir, maxSegmentBytes, [seg], {} + seg.Objects());
        return Ok(cl);
    }
  }

  lemma OnDiskNames(files: map<string, bytes>, chain: Chain)
    requires OnDisk(files, chain)
    ensures NoStrays(files, chain)
  {
  }

  lemma ChainFromNames(files: map<string, bytes>, chain: Chain, max: int, offsets: seq<int>)
    requires OnDisk(files, chain) && (chain == [] || ChainOk(chain, max))
    requires forall b :: b in offsets ==> 0 <= b < B64
    requires forall b: uint64 :: b in offsets
               <==> exists name :: name in files.Keys && LogBase(name) == Some(b)
    requires Canonical(files.Keys) ==> Sorting.Distinct(offsets)
    ensures Sorting.Sort(offsets, Sorting.IntLess()) == Bases(chain)
    ensures forall i :: 0 <= i < |chain| ==> chain[i].Ok()
  {
    hide LogBase, LogName, SegState.Ok, StartsBelow;
    assert Canonical(files.Keys);
    SortedBases(files, chain, max, offsets);
  }
}
