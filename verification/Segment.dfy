/**
  A segment (broker/storage/segment.go): a log file of records and its index file. Its
  abstract content is the sequence of record payloads; the index covers a tail of them.
 */
module Segments {
  import opened Bytes
  import opened Outcomes
  import opened Files
  import opened Record
  import opened Framing
  import opened OffsetIndex
  import opened Decimal

  datatype Message = Message(offset: nat, timestamp: int64, key: bytes, value: bytes)

  /** A decoded payload under its offset. */
  function Labelled(offset: nat, p: bytes): Message
    requires Decodable(p)
  {
    var r := DecodePayload(p).value;
    Message(offset, r.timestamp, r.key, r.value)
  }

  ghost predicate AllDecodable(ps: seq<bytes>) {
    forall i :: 0 <= i < |ps| ==> Decodable(ps[i])
  }

  ghost function Labels(ps: seq<bytes>, first: nat): (ms: seq<Message>)
    requires AllDecodable(ps)
    ensures |ms| == |ps|
    ensures forall i :: 0 <= i < |ps| ==> ms[i] == Labelled(first + i, ps[i])
  {
    seq(|ps|, i requires 0 <= i < |ps| => Labelled(first + i, ps[i]))
  }

  /** The messages of consecutive payloads, the first one at the given offset. */
  ghost function Page(ps: seq<bytes>, first: nat): Outcome<seq<Message>> {
    if AllDecodable(ps) then Ok(Labels(ps, first)) else Panic
  }

  lemma PageEmpty(first: nat)
    ensures Page([], first) == Ok([])
  {
    assert Labels([], first) == [];
  }

  lemma PageConcat(a: seq<bytes>, b: seq<bytes>, first: nat)
    ensures Page(a + b, first)
         == if Page(a, first).Ok? && Page(b, first + |a|).Ok?
            then Ok(Page(a, first).value + Page(b, first + |a|).value)
            else Panic
  {
    hide Decodable, Labelled, AllDecodable;
    DecodableConcat(a, b);
    if AllDecodable(a) && AllDecodable(b) {
      LabelsConcat(a, b, first);
    }
  }

  lemma DecodableConcat(a: seq<bytes>, b: seq<bytes>)
    ensures AllDecodable(a + b) <==> AllDecodable(a) && AllDecodable(b)
  {
    hide Decodable;
    var ab := a + b;
    assert forall i :: 0 <= i < |a| ==> ab[i] == a[i];
    assert forall i :: 0 <= i < |b| ==> ab[|a| + i] == b[i];
  }

  lemma LabelsConcat(a: seq<bytes>, b: seq<bytes>, first: nat)
    requires AllDecodable(a) && AllDecodable(b)
    ensures AllDecodable(a + b)
    ensures Labels(a + b, first) == Labels(a, first) + Labels(b, first + |a|)
  {
    hide Decodable, Labelled;
    DecodableConcat(a, b);
  }

  lemma PageSnoc(ps: seq<bytes>, p: bytes, first: nat)
    ensures Page(ps, first).Ok? && Decodable(p)
        ==> Page(ps + [p], first) == Ok(Page(ps, first).value + [Labelled(first + |ps|, p)])
  {
    hide Decodable, Labelled;
    PageConcat(ps, [p], first);
    if Decodable(p) {
      assert Labels([p], first + |ps|) == [Labelled(first + |ps|, p)];
    }
  }

  lemma PageLength(ps: seq<bytes>, first: nat)
    ensures Page(ps, first).Ok? ==> |Page(ps, first).value| == |ps|
  {
  }

  lemma PagePanics(ps: seq<bytes>, first: nat, i: nat)
    requires i < |ps| && !Decodable(ps[i])
    ensures Page(ps, first) == Panic
  {
  }

  /** One more decoded record on a page. */
  lemma PageStep(ps: seq<Payload>, from: nat, j: nat, first: nat, ms: seq<Message>)
    requires from <= j < |ps| && Page(ps[from..j], first) == Ok(ms)
    ensures !DecodePayload(ps[j]).Ok? ==> !Decodable(ps[j])
    ensures DecodePayload(ps[j]).Ok?
        ==> var r := DecodePayload(ps[j]).value;
            Page(ps[from..j + 1], first)
            == Ok(ms + [Message(first + j - from, r.timestamp, r.key, r.value)])
  {
    hide DecodePayload, Page;
    assert ps[from..j + 1] == ps[from..j] + [ps[j]];
    PageSnoc(ps[from..j], ps[j], first);
  }

  // ---------- a segment as a value ----------

  datatype SegState = SegState(base: uint64, payloads: seq<Payload>, covered: nat) {
    ghost function Next(): nat { base + |payloads| }

    ghost function Size(): nat { |Frames(payloads)| }

    /** Offsets fit 64 bits, positions fit 32 bits, the index covers a tail of the records. */
    ghost predicate Ok() {
      Next() < B64 && Addressable(payloads) && covered <= |payloads|
    }
  }

  /**
    What reading from an offset with a count limit returns on a log of payloads whose first
    one has offset base: the messages of the window, under consecutive offsets.
   */
  ghost function ReadResult(ps: seq<Payload>, base: nat, offset: nat, maxCount: int)
    : (r: Outcome<seq<Message>>)
    ensures r.Ok? || r == Panic
  {
    var w := Window(|ps|, base, offset, maxCount);
    Page(ps[w.0..w.1], base + w.0)
  }

  /** What reading a single offset returns. */
  ghost function ReadOne(ps: seq<Payload>, base: nat, offset: nat): Outcome<Message> {
    if offset < base || offset >= base + |ps| then Err(NotFound)
    else if Decodable(ps[offset - base]) then Ok(Labelled(offset, ps[offset - base]))
    else Panic
  }

  lemma Clamped(n: nat, base: nat, offset: nat, maxCount: int)
    ensures Window(n, base, offset, maxCount)
         == Window(n, base, if offset < base then base else offset, maxCount)
    ensures offset >= base + n ==> Window(n, base, offset, maxCount) == (n, n)
  {
  }

  function ContentsOf(files: map<string, bytes>, name: string): bytes {
    if name in files then files[name] else []
  }

  /** The two files of a segment; a missing file counts as an empty one. */
  ghost predicate Stored(files: map<string, bytes>, s: SegState) {
    ContentsOf(files, LogName(s.base)) == Frames(s.payloads)
    && ContentsOf(files, IndexName(s.base)) == Entries(s.payloads, s.covered)
  }

  /** The stretch of n payloads that a read from an offset with a count limit covers. */
  function Window(n: nat, base: nat, offset: nat, maxCount: int): (w: (nat, nat))
    ensures w.0 <= w.1 <= n
  {
    var from := if offset < base then 0 else offset - base;
    if from >= n || maxCount <= 0 then (n, n)
    else (from, if from + maxCount < n then from + maxCount else n)
  }

  /** Appending a record and its index entry to the files of a segment. */
  lemma StateSnoc(s: SegState, p: Payload)
    requires s.Ok() && s.Next() + 1 < B64 && s.Size() < B32
    ensures var t := s.(payloads := s.payloads + [p]);
            && t.Ok() && t.Next() == s.Next() + 1
            && Frames(t.payloads) == Frames(s.payloads) + Frame(p)
            && Entries(t.payloads, t.covered)
               == Entries(s.payloads, s.covered) + Entry(|s.payloads|, s.Size())
  {
    hide Frames, Entries, Frame, Entry;
    FramesSnoc(s.payloads, p);
    EntriesSnoc(s.payloads, p, s.covered);
    var ps := s.payloads + [p];
    forall j | 0 <= j < |ps|
      ensures Pos(ps, j) < B32
    {
      PosSnoc(s.payloads, p, j);
      assert s.payloads[..|s.payloads|] == s.payloads;
    }
  }

  /** Where a read of record t starts: at the record if it is indexed, otherwise at byte 0. */
  lemma IndexedPosition(s: SegState, t: nat)
    requires s.Ok() && t < |s.payloads|
    ensures t < B32 && Pos(s.payloads, 0) == 0 && (t > 0 ==> Pos(s.payloads, t) > 0)
    ensures var m := Entries(s.payloads, s.covered);
            && Increasing(m)
            && LinearLookup(m, |m| / 8, t) == if t < s.covered then 0 else Pos(s.payloads, t)
  {
    hide Frames, Entries, LinearLookup;
    PosGap(s.payloads, 0, t);
    EntriesIncrease(s.payloads, s.covered);
    LookupEntry(s.payloads, s.covered, t);
  }

  /** Reads the next length prefix and its payload; None at the end of the file. */
  method ReadPayload(file: File) returns (r: Outcome<Option<bytes>>)
    requires file.name in file.dir.files
    modifies file
    ensures var b, pos := file.Contents(), old(file.cursor);
            if pos >= |b| then r == Ok(None)
            else if pos + 4 > |b| then r == Err(UnexpectedEOF)
            else
              var end := pos + 4 + Get32(b[pos..pos + 4]);
              if end <= |b| then r == Ok(Some(b[pos + 4..end])) && file.cursor == end
              else r == Err(if pos + 4 == |b| then EOF else UnexpectedEOF)
  {
    hide Get32;
    var prefix := file.ReadFull(4);
    if prefix == Err(EOF) {
      return Ok(None);
    }
    match prefix {
      case Err(e) => return Err(e);
      case Panic => return Panic;
      case Ok(bytes) =>
        var payload := file.ReadFull(Get32(bytes));
        match payload {
          case Err(e) => return Err(e);
          case Panic => return Panic;
          case Ok(p) => return Ok(Some(p));
        }
    }
  }

  class Segment {
    const dir: Directory
    const file: File
    const index: Index
    const baseOffset: uint64
    var nextOffset: uint64
    var size: nat
    ghost var payloads: seq<Payload>
    ghost var covered: nat

    ghost function State(): SegState
      reads this
    {
      SegState(baseOffset, payloads, covered)
    }

    ghost function Objects(): set<object> {
      {this, file, index, index.file}
    }

    ghost predicate Valid()
      reads this, index, dir, index.file.dir
    {
      && file.dir == dir && file.name == LogName(baseOffset)
      && index.file.dir == dir && index.file.name == IndexName(baseOffset)
      && index.baseOffset == baseOffset && index.Valid()
      && file.name in dir.files
      && State().Ok() && Stored(dir.files, State())
      && nextOffset == State().Next()
      && size == State().Size()
    }

    constructor (dir: Directory, file: File, index: Index, baseOffset: uint64, nextOffset: uint64,
                 size: nat, ghost s: SegState)
      ensures this.dir == dir && this.file == file && this.index == index
      ensures this.baseOffset == baseOffset && this.nextOffset == nextOffset && this.size == size
      ensures payloads == s.payloads && covered == s.covered
    {
      this.dir, this.file, this.index := dir, file, index;
      this.baseOffset, this.nextOffset, this.size := baseOffset, nextOffset, size;
      this.payloads, this.covered := s.payloads, s.covered;
    }

    /** Segment.Append; the clock reading is an argument. */
    method Append(timestamp: int64, key: bytes, value: bytes) returns (r: Outcome<uint64>)
      requires Valid() && nextOffset + 1 < B64 && size < B32
      modifies `nextOffset, `size, `payloads, file, index, dir
      ensures Valid() && covered == old(covered) && dir.files.Keys == old(dir.files.Keys)
      ensures Encodable(key, value)
          ==> r == Ok(old(nextOffset))
              && payloads == old(payloads) + [PayloadOf(timestamp, key, value)]
      ensures !Encodable(key, value)
          ==> r == Panic && payloads == old(payloads) && dir.files == old(dir.files)
      ensures forall name :: name != file.name && name != index.file.name
                  ==> SameFile(old(dir.files), dir.files, name)
    {
      hide Frames, Entries, Frame, Entry, PayloadOf, Encodable, LogName, IndexName, SegState.Ok;
      var offset := nextOffset;
      var buf := EncodeRecord(timestamp, key, value);
      if !buf.Ok? {
        return Panic;
      }
      var pos := size;
      StateSnoc(State(), PayloadOf(timestamp, key, value));
      NamesDistinct(baseOffset, baseOffset);
      ghost var p := PayloadOf(timestamp, key, value);
      file.Append(buf.value);
      index.Write(offset, pos);
      nextOffset := nextOffset + 1;
      size := size + |buf.value|;
      payloads := payloads + [p];
      return Ok(offset);
    }
 
    /** The lookup of a record's offset in the current index. */
    lemma Located(target: uint64)
      requires Valid() && baseOffset <= target < nextOffset
      ensures index.Valid() && Increasing(index.mmap) && index.baseOffset == baseOffset
      ensures LinearLookup(index.mmap, |index.mmap| / 8, (target - baseOffset) % B32)
           == if target - baseOffset < covered then 0 else Pos(payloads, target - baseOffset)
      ensures Pos(payloads, 0) == 0 && (target > baseOffset ==> Pos(payloads, target - baseOffset) > 0)
    {
      hide Frames, Entries, LogName, IndexName, LinearLookup, Increasing, SegState.Ok, Pos;
      IndexedPosition(State(), target - baseOffset);
      IndexBytes();
    }

    lemma IndexBytes()
      requires Valid()
      ensures index.mmap == Entries(payloads, covered)
    {
      hide Frames, Entries, LogName, IndexName, SegState.Ok;
    }

    /** What validity means for the files and the counters. */
    lemma Facts()
      requires Valid()
      ensures file.name == LogName(baseOffset) && index.file.name == IndexName(baseOffset)
      ensures file.name in dir.files && index.file.name in dir.files
      ensures Stored(dir.files, State())
      ensures nextOffset == State().Next() && size == State().Size()
    {
      hide SegState.Ok;
    }

    lemma LogBytes()
      requires Valid()
      ensures file.name in file.dir.files && file.Contents() == Frames(payloads)
      ensures nextOffset == baseOffset + |payloads| && file.dir == dir && file.name == LogName(baseOffset)
    {
    }

    method ReadFrom(offset: uint64, maxCount: int) returns (r: Outcome<seq<Message>>)
      requires Valid()
      modifies file
      ensures r == ReadResult(payloads, baseOffset, offset, maxCount)
    {
      hide Frames, Page, LinearLookup, Increasing, Pos, Valid, Index.Valid, Window;
      LogBytes();
      Clamped(|payloads|, baseOffset, offset, maxCount);
      var target: uint64 := if offset < baseOffset then baseOffset else offset;
      if target >= nextOffset {
        EmptyPage(payloads, baseOffset);
        return Outcome.Ok([]);
      }
      Located(target);
      var pos := index.Lookup(target);
      file.SeekStart(pos);
      var currentOff := baseOffset;
      if pos > 0 {
        currentOff := target;
      }
      r := ScanRecords(file, baseOffset, nextOffset, currentOff, target, maxCount, payloads);
    }

    /** Segment.Read: one message, or ErrNotFound outside the segment. */
    method Read(offset: uint64) returns (r: Outcome<Message>)
      requires Valid()
      modifies file
      ensures r == ReadOne(payloads, baseOffset, offset)
    {
      hide DecodePayload, Frames, Entries, LogName, IndexName;
      if offset < baseOffset || offset >= nextOffset {
        return Err(NotFound);
      }
      ghost var i: nat := offset - baseOffset;
      assert payloads[i..i + 1] == [payloads[i]];
      var msgs := ReadFrom(offset, 1);
      match msgs {
        case Err(e) => return Err(e);
        case Panic => return Panic;
        case Ok(ms) =>
          if |ms| == 0 {
            return Err(NotFound);
          }
          return Outcome.Ok(ms[0]);
      }
    }

    predicate IsFull(maxBytes: int)
      reads this
    {
      size >= maxBytes
    }
  }

  /** The counting loop of NewSegment: hops from prefix to prefix over the whole file. */
  method CountRecords(file: File, size: nat) returns (r: Outcome<nat>)
    requires file.name in file.dir.files && size == |file.Contents()|
    modifies file
    ensures r == Hops(file.Contents(), 0)
  {
    hide Get32, Hops;
    file.SeekStart(0);
    var offsetCount, pos := 0, 0;
    ghost var b := file.Contents();
    HopCases(b, 0);
    while pos < size
      invariant file.cursor == pos
      invariant Plus(offsetCount, Hops(b, pos)) == Hops(b, 0)
      decreases size - pos
    {
      HopCases(b, pos);
      var prefix := file.ReadFull(4);
      match prefix {
        case Err(e) =>
          if e == EOF {
            break;
          }
          return Err(e);
        case Panic => return Panic;
        case Ok(bytes) =>
          var totalLen := Get32(bytes);
          file.SeekCurrent(totalLen);
          offsetCount := offsetCount + 1;
          pos := pos + 4 + totalLen;
          HopCases(b, pos);
      }
    }
    HopCases(b, pos);
    file.SeekEnd();
    return Ok(offsetCount);
  }

  lemma HopCases(b: bytes, pos: nat)
    ensures pos >= |b| ==> Hops(b, pos) == Ok(0)
    ensures pos < |b| < pos + 4 ==> Hops(b, pos) == Err(UnexpectedEOF)
    ensures pos + 4 <= |b| ==> Hops(b, pos) == Plus(1, Hops(b, pos + 4 + Get32(b[pos..pos + 4])))
  {
    hide Get32;
  }

  /**
    NewSegment: opens or creates the two files and recovers the next offset. The ghost state
    is what the caller knows to be stored under this base offset, if anything.
   */
  method NewSegment(dir: Directory, baseOffset: uint64, ghost s: SegState)
    returns (r: Outcome<Segment>)
    modifies dir
    ensures dir.files
         == Created(Created(old(dir.files), LogName(baseOffset)), IndexName(baseOffset))
    ensures var b := ContentsOf(old(dir.files), LogName(baseOffset));
            match Hops(b, 0)
            case Ok(n) => r.Ok? && fresh(r.value.Objects())
                          && r.value.dir == dir && r.value.index.file.dir == dir
                          && r.value.baseOffset == baseOffset && r.value.size == |b|
                          && r.value.nextOffset == (baseOffset + n) % B64
            case _ => r == Err(UnexpectedEOF)
    ensures s.base == baseOffset && s.Ok() && Stored(old(dir.files), s)
        ==> r.Ok? && r.value.Valid() && r.value.State() == s
  {
    hide Hops, Frames, Entries, Addressable, IndexName, LogName;
    NamesDistinct(baseOffset, baseOffset);
    RecoverWhole(s.payloads);
    var f := new File.Open(dir, LogName(baseOffset));
    var idx := new Index.Open(dir, IndexName(baseOffset), baseOffset);
    var size := |f.Contents()|;
    var nextOffset := baseOffset;
    if size > 0 {
      var n := CountRecords(f, size);
      match n {
        case Err(e) => return Err(e);
        case Panic => return Panic;
        case Ok(offsetCount) => nextOffset := (baseOffset + offsetCount) % B64;
      }
    } else {
      HopCases(f.Contents(), 0);
    }
    var seg := new Segment(dir, f, idx, baseOffset, nextOffset, size, s);
    if s.base == baseOffset && s.Ok() && Stored(old(dir.files), s) {
      assert seg.index.Valid();
      assert seg.size == seg.State().Size();
      assert seg.nextOffset == seg.State().Next();
    }
    return Ok(seg);
  }

  lemma EmptyPage(ps: seq<Payload>, base: nat)
    ensures Page(ps[|ps|..|ps|], base + |ps|) == Ok([])
  {
    PageEmpty(base + |ps|);
    assert ps[|ps|..|ps|] == [];
  }

  /** Record j is read whole, and the cursor ends at record j + 1. */
  method ReadRecord(file: File, ghost ps: seq<Payload>, ghost j: nat)
    returns (r: Outcome<Option<bytes>>)
    requires file.name in file.dir.files && file.Contents() == Frames(ps) && j < |ps|
    requires file.cursor == Pos(ps, j)
    modifies file
    ensures r == Ok(Some(ps[j])) && file.cursor == Pos(ps, j + 1)
  {
    hide Frames, Get32, Put32;
    FrameAt(ps, j);
    GetPut32(|ps[j]|);
    r := ReadPayload(file);
  }

  /** The scanning loop of ReadFrom, from the record at currentOff on. */
  method ScanRecords(file: File, base: uint64, next: uint64, startOff: uint64, target: uint64,
                     maxCount: int, ghost ps: seq<Payload>)
    returns (r: Outcome<seq<Message>>)
    requires file.name in file.dir.files && file.Contents() == Frames(ps)
    requires base <= startOff <= target < next == base + |ps|
    requires file.cursor == Pos(ps, startOff - base)
    modifies file
    ensures r == ReadResult(ps, base, target, maxCount)
  {
    hide Frames, Pos, Page, Decodable, DecodePayload, Get32, Put32;
    var currentOff := startOff;
    var msgs: seq<Message> := [];
    ghost var from: nat := target - base;
    PageEmpty(target);
    assert ps[from..from] == [];
    while |msgs| < maxCount && currentOff < next
      invariant startOff <= currentOff <= next
      invariant file.cursor == Pos(ps, currentOff - base)
      invariant currentOff <= target ==> msgs == []
      invariant currentOff >= target
            ==> |msgs| == currentOff - target
                && Page(ps[from..currentOff - base], target) == Ok(msgs)
      invariant |msgs| <= if maxCount < 0 then 0 else maxCount
      decreases next - currentOff
    {
      ghost var j: nat := currentOff - base;
      var payload := ReadRecord(file, ps, j);
      match payload {
        case Err(e) => return Err(e);
        case Panic => return Panic;
        case Ok(None) => break;
        case Ok(Some(p)) =>
          if currentOff >= target {
            PageStep(ps, from, j, target, msgs);
            var m := DecodePayload(p);
            if !m.Ok? {
              ghost var w := Window(|ps|, base, target, maxCount);
              PagePanics(ps[w.0..w.1], target, j - from);
              return Panic;
            }
            msgs := msgs + [Message(currentOff, m.value.timestamp, m.value.key, m.value.value)];
          }
      }
      currentOff := currentOff + 1;
    }
    if maxCount <= 0 {
      EmptyPage(ps, base);
    }
    return Ok(msgs);
  }
}
