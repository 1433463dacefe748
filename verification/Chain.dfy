/**
  The list of segments of a commit log as a value (broker/storage/log.go): which lists are
  well formed, the log they stand for, and how they lie in a directory.
 */
module Chains {
  import opened Bytes
  import opened Outcomes
  import opened Files
  import opened Record
  import opened Framing
  import opened OffsetIndex
  import opened Decimal
  import opened Segments
  import opened Sorting

  type Chain = seq<SegState>

  /** The log of a chain: the payloads of its segments, one after the other. */
  ghost function Contents(chain: Chain): seq<Payload> {
    if chain == [] then [] else Contents(chain[..|chain| - 1]) + chain[|chain| - 1].payloads
  }

  /** Each segment starts at the offset where the one before it ends. */
  ghost predicate Linked(chain: Chain) {
    forall i, j :: 0 <= i && j == i + 1 < |chain| ==> chain[i].Next() == chain[j].base
  }

  /** Every segment but the last one has reached the size limit. */
  ghost predicate FullButLast(chain: Chain, max: int) {
    forall i :: 0 <= i < |chain| - 1 ==> chain[i].Size() >= max
  }

  /** No record starts at or behind the size limit. */
  ghost predicate StartsBelow(s: SegState, max: int) {
    forall j :: 0 <= j < |s.payloads| ==> Pos(s.payloads, j) < max
  }

  /** The invariant of every reachable segment list. */
  ghost predicate ChainOk(chain: Chain, max: int) {
    && 1 <= max <= B32
    && chain != []
    && (forall i :: 0 <= i < |chain| ==> chain[i].Ok() && StartsBelow(chain[i], max))
    && Linked(chain)
    && FullButLast(chain, max)
  }

  lemma LimitFits(chain: Chain, max: int)
    requires ChainOk(chain, max)
    ensures 1 <= max <= B32 && chain != []
  {
  }

  /** The offset the next message will get. */
  ghost function NextOffset(chain: Chain): nat
    requires chain != []
  {
    chain[|chain| - 1].Next()
  }

  // ---------- offsets ----------

  /** Segment i starts behind as many payloads as its offset is above the oldest one. */
  lemma {:induction false} BaseOffset(chain: Chain, i: nat)
    requires Linked(chain) && i < |chain|
    ensures chain[i].base == chain[0].base + |Contents(chain[..i])|
  {
    hide SegState.Ok;
    if i > 0 {
      BaseOffset(chain, i - 1);
      assert chain[..i][..i - 1] == chain[..i - 1];
      assert chain[i - 1].Next() == chain[i].base;
    }
  }

  /** The contents up to and including segment i. */
  lemma ContentsStep(chain: Chain, i: nat)
    requires i < |chain|
    ensures Contents(chain[..i + 1]) == Contents(chain[..i]) + chain[i].payloads
  {
    assert chain[..i + 1][..i] == chain[..i];
  }

  lemma {:induction false} ContentsPrefix(chain: Chain, i: nat)
    requires i <= |chain|
    ensures Contents(chain[..i]) <= Contents(chain)
  {
    if i == |chain| {
      assert chain[..i] == chain;
    } else {
      ContentsPrefix(chain[..|chain| - 1], i);
      assert chain[..|chain| - 1][..i] == chain[..i];
    }
  }

  /** The next offset counts the whole log from the oldest offset. */
  lemma NextIsLength(chain: Chain)
    requires Linked(chain) && chain != []
    ensures NextOffset(chain) == chain[0].base + |Contents(chain)|
    ensures chain[|chain| - 1].base + |chain[|chain| - 1].payloads| == NextOffset(chain)
  {
    BaseOffset(chain, |chain| - 1);
  }

  /** Where a segment's payloads lie in the log. */
  lemma SegmentSlice(chain: Chain, i: nat)
    requires i < |chain|
    ensures var s := |Contents(chain[..i])|;
            s + |chain[i].payloads| <= |Contents(chain)|
            && Contents(chain)[s..s + |chain[i].payloads|] == chain[i].payloads
  {
    ContentsStep(chain, i);
    ContentsPrefix(chain, i + 1);
  }

  /** Bases strictly increase, because only the last segment can be empty. */
  lemma {:induction false} BasesIncrease(chain: Chain, max: int, i: nat, j: nat)
    requires ChainOk(chain, max) && i < j < |chain|
    ensures chain[i].base < chain[j].base && chain[i].Next() <= chain[j].base
    decreases j
  {
    hide SegState.Ok, SegState.Next, StartsBelow;
    NonEmptyButLast(chain, max, j - 1);
    if i < j - 1 {
      BasesIncrease(chain, max, i, j - 1);
    }
  }

  lemma NonEmptyButLast(chain: Chain, max: int, i: nat)
    requires ChainOk(chain, max) && i < |chain| - 1
    ensures chain[i].payloads != []
    ensures chain[i].base < chain[i].Next() == chain[i + 1].base
  {
    assert chain[i].Size() >= max;
  }

  // ---------- growth ----------

  function Opened(base: uint64): SegState { SegState(base, [], 0) }

  lemma OpenedOk(base: uint64, max: int)
    ensures Opened(base).Ok() && StartsBelow(Opened(base), max)
  {
  }

  lemma ContentsSnoc(chain: Chain, s: SegState)
    ensures Contents(chain + [s]) == Contents(chain) + s.payloads
  {
    assert (chain + [s])[..|chain|] == chain;
  }

  /** Putting a segment behind a full one that ends where it starts. */
  lemma ChainSnoc(chain: Chain, max: int, s: SegState)
    requires ChainOk(chain, max) && chain[|chain| - 1].Size() >= max
    requires s.Ok() && StartsBelow(s, max) && s.base == NextOffset(chain)
    ensures ChainOk(chain + [s], max)
  {
    hide SegState.Ok, StartsBelow, SegState.Size, SegState.Next;
    var grown := chain + [s];
    forall i | 0 <= i < |grown|
      ensures grown[i].Ok() && StartsBelow(grown[i], max)
      ensures i < |grown| - 1 ==> grown[i].Size() >= max && grown[i].Next() == grown[i + 1].base
    {
      if i < |chain| {
        assert grown[i] == chain[i];
        assert i < |chain| - 1 ==> grown[i + 1] == chain[i + 1];
      }
    }
  }

  /** Rolling: a new empty segment behind a full one leaves the log as it is. */
  lemma Rolled(chain: Chain, max: int)
    requires ChainOk(chain, max) && chain[|chain| - 1].Size() >= max
    ensures NextOffset(chain) < B64
    ensures var grown := chain + [Opened(NextOffset(chain))];
            ChainOk(grown, max) && Contents(grown) == Contents(chain)
            && NextOffset(grown) == NextOffset(chain)
  {
    NextFits(chain[|chain| - 1]);
    var s := Opened(NextOffset(chain));
    OpenedOk(s.base, max);
    ChainSnoc(chain, max, s);
    ContentsSnoc(chain, s);
    assert Contents(chain) + [] == Contents(chain);
  }

  lemma NextFits(s: SegState)
    requires s.Ok()
    ensures s.Next() < B64
  {
  }

  /** Appending to the last segment while it is below the size limit appends to the log. */
  lemma Appended(chain: Chain, max: int, p: Payload)
    requires ChainOk(chain, max) && NextOffset(chain) + 1 < B64
    requires chain[|chain| - 1].Size() < max
    ensures var last := |chain| - 1;
            var grown := chain[last := chain[last].(payloads := chain[last].payloads + [p])];
            ChainOk(grown, max) && Contents(grown) == Contents(chain) + [p]
            && NextOffset(grown) == NextOffset(chain) + 1
  {
    var last := |chain| - 1;
    var t := chain[last].(payloads := chain[last].payloads + [p]);
    StateSnoc(chain[last], p);
    StartsBelowSnoc(chain[last], max, p);
    ChainUpdate(chain, max, t);
    ContentsUpdate(chain, p);
  }

  lemma ContentsUpdate(chain: Chain, p: Payload)
    requires chain != []
    ensures var last := |chain| - 1;
            Contents(chain[last := chain[last].(payloads := chain[last].payloads + [p])])
            == Contents(chain) + [p]
  {
    var last := |chain| - 1;
    var grown := chain[last := chain[last].(payloads := chain[last].payloads + [p])];
    assert grown[..last] == chain[..last];
  }

  /** Replacing the last segment by one with the same base. */
  lemma ChainUpdate(chain: Chain, max: int, t: SegState)
    requires ChainOk(chain, max) && t.Ok() && StartsBelow(t, max)
    requires t.base == chain[|chain| - 1].base
    ensures ChainOk(chain[|chain| - 1 := t], max)
  {
    hide SegState.Ok, StartsBelow, SegState.Size, SegState.Next;
    var grown := chain[|chain| - 1 := t];
    forall i | 0 <= i < |grown|
      ensures grown[i].Ok() && StartsBelow(grown[i], max)
      ensures i < |grown| - 1 ==> grown[i].Size() >= max && grown[i].Next() == grown[i + 1].base
    {
      if i < |chain| - 1 {
        assert grown[i] == chain[i] && grown[i + 1].base == chain[i + 1].base;
      }
    }
  }

  lemma StartsBelowSnoc(s: SegState, max: int, p: Payload)
    requires StartsBelow(s, max) && s.Size() < max
    ensures StartsBelow(s.(payloads := s.payloads + [p]), max)
  {
    hide Frames;
    var ps := s.payloads + [p];
    forall j | 0 <= j < |ps|
      ensures Pos(ps, j) < max
    {
      PosSnoc(s.payloads, p, j);
      assert s.payloads[..|s.payloads|] == s.payloads;
    }
  }

  /** A segment's file ends less than one record behind the size limit. */
  lemma SizeBound(s: SegState, max: int)
    requires StartsBelow(s, max) && s.payloads != []
    ensures s.Size() < max + 4 + |s.payloads[|s.payloads| - 1]|
  {
    hide Frames;
    var last := |s.payloads| - 1;
    FrameAt(s.payloads, last);
    assert s.payloads[..last + 1] == s.payloads;
  }

  /**
    Both casts of Index.Write are exact in every reachable state: an indexed record starts
    below the size limit, its relative offset is at most a 18th of that, and its entry holds
    both numbers.
   */
  lemma NoNarrowingLoss(chain: Chain, max: int, i: nat, k: nat)
    requires ChainOk(chain, max) && i < |chain|
    requires chain[i].covered + k < |chain[i].payloads|
    ensures var s := chain[i];
            var j, m := s.covered + k, Entries(s.payloads, s.covered);
            && 18 * j <= Pos(s.payloads, j) < max
            && RelAt(m, k) == j && PosAt(m, k) == Pos(s.payloads, j)
  {
    hide Frames, Entries, RelAt, PosAt;
    var s := chain[i];
    PosGap(s.payloads, 0, s.covered + k);
    EntryAt(s.payloads, s.covered, k);
  }

  // ---------- in a directory ----------

  ghost predicate HasBase(chain: Chain, base: uint64) {
    exists i :: 0 <= i < |chain| && chain[i].base == base
  }

  /** The directory has the log files of these segments and no other segment files. */
  ghost predicate NoStrays(files: map<string, bytes>, chain: Chain) {
    && (forall i :: 0 <= i < |chain| ==> LogName(chain[i].base) in files)
    && (forall name :: name in files && LogBase(name).Some?
          ==> name == LogName(LogBase(name).value) && HasBase(chain, LogBase(name).value))
    && (forall base: uint64 :: IndexName(base) in files ==> HasBase(chain, base))
  }

  /** The directory a closed commit log leaves behind; index files may be missing. */
  ghost predicate OnDisk(files: map<string, bytes>, chain: Chain) {
    NoStrays(files, chain) && forall i :: 0 <= i < |chain| ==> Stored(files, chain[i])
  }

  /** Creating the files of one more segment. */
  lemma StraysRolled(files: map<string, bytes>, chain: Chain, s: SegState)
    requires NoStrays(files, chain)
    ensures NoStrays(Created(Created(files, LogName(s.base)), IndexName(s.base)), chain + [s])
  {
    hide LogName, IndexName, LogBase;
    var files' := Created(Created(files, LogName(s.base)), IndexName(s.base));
    var grown := chain + [s];
    assert grown[|chain|] == s;
    forall base | HasBase(chain, base)
      ensures HasBase(grown, base)
    {
      var i :| 0 <= i < |chain| && chain[i].base == base;
      assert grown[i] == chain[i];
    }
    LogNameRoundTrip(s.base);
    NamesDistinct(s.base, s.base);
    forall base: uint64 | IndexName(base) in files'
      ensures HasBase(grown, base)
    {
      NamesDistinct(s.base, base);
      NamesDistinct(base, s.base);
    }
  }

  /** Appending to files changes neither the directory's names nor the segments' bases. */
  lemma StraysAppended(files: map<string, bytes>, files': map<string, bytes>, chain: Chain,
                       chain': Chain)
    requires NoStrays(files, chain) && files'.Keys == files.Keys
    requires |chain'| == |chain| && forall i :: 0 <= i < |chain| ==> chain'[i].base == chain[i].base
    ensures NoStrays(files', chain')
  {
    hide LogName, IndexName, LogBase;
    forall base | HasBase(chain, base)
      ensures HasBase(chain', base)
    {
      var i :| 0 <= i < |chain| && chain[i].base == base;
      assert chain'[i].base == base;
    }
  }

  /** The names of two segments of a chain differ. */
  lemma SegmentNamesDiffer(chain: Chain, max: int, i: nat)
    requires ChainOk(chain, max) && i < |chain| - 1
    ensures var a, b := chain[i].base, chain[|chain| - 1].base;
            && LogName(a) != LogName(b) && IndexName(a) != IndexName(b)
            && LogName(a) != IndexName(b) && IndexName(a) != LogName(b)
  {
    hide ChainOk, LogName, IndexName;
    BasesIncrease(chain, max, i, |chain| - 1);
    NamesDistinct(chain[i].base, chain[|chain| - 1].base);
    NamesDistinct(chain[|chain| - 1].base, chain[i].base);
  }

  /** A new segment finds no old files under its names. */
  lemma FreshNames(files: map<string, bytes>, chain: Chain, max: int)
    requires ChainOk(chain, max) && NoStrays(files, chain)
    requires chain[|chain| - 1].Size() >= max
    ensures NextOffset(chain) < B64 && Stored(files, Opened(NextOffset(chain)))
  {
    hide LogName, IndexName, LogBase, SegState.Ok;
    NextFits(chain[|chain| - 1]);
    var base := NextOffset(chain);
    LogNameRoundTrip(base);
    if HasBase(chain, base) {
      var i :| 0 <= i < |chain| && chain[i].base == base;
      assert chain[|chain| - 1].payloads != [];
      if i < |chain| - 1 {
        BasesIncrease(chain, max, i, |chain| - 1);
      }
    }
  }

  /** Opening a segment again changes nothing but a missing index file into an empty one. */
  lemma OnDiskOpened(files: map<string, bytes>, chain: Chain, i: nat)
    requires OnDisk(files, chain) && i < |chain|
    ensures var b := chain[i].base;
            OnDisk(Created(Created(files, LogName(b)), IndexName(b)), chain)
  {
    hide LogName, IndexName, LogBase, Frames, Entries;
    var b := chain[i].base;
    var files' := Created(Created(files, LogName(b)), IndexName(b));
    NamesDistinct(b, b);
    forall base: uint64 | IndexName(base) in files'
      ensures HasBase(chain, base)
    {
      if base != b {
        NamesDistinct(b, base);
      }
    }
    forall j | 0 <= j < |chain|
      ensures Stored(files', chain[j])
    {
      assert ContentsOf(files', LogName(chain[j].base)) == ContentsOf(files, LogName(chain[j].base));
    }
  }

  /** The directory of no segments has nothing stored for any offset. */
  lemma NothingStored(files: map<string, bytes>, base: uint64)
    requires NoStrays(files, [])
    ensures Stored(files, Opened(base))
  {
    hide LogName, IndexName, LogBase;
    LogNameRoundTrip(base);
  }

  ghost function Bases(chain: Chain): (bases: seq<int>)
    ensures |bases| == |chain| && forall i :: 0 <= i < |chain| ==> bases[i] == chain[i].base
  {
    if chain == [] then [] else Bases(chain[..|chain| - 1]) + [chain[|chain| - 1].base]
  }

  /** Every log name in the directory is the 20-digit name of its number. */
  ghost predicate Canonical(names: set<string>) {
    forall name :: name in names && LogBase(name).Some? ==> name == LogName(LogBase(name).value)
  }

  /** The offsets read from the directory, once sorted, are the bases of the chain. */
  lemma SortedBases(files: map<string, bytes>, chain: Chain, max: int, offsets: seq<int>)
    requires NoStrays(files, chain) && (chain == [] || ChainOk(chain, max))
    requires Distinct(offsets)
    requires forall b: uint64 :: b in offsets <==> exists name :: name in files && LogBase(name) == Some(b)
    requires forall b :: b in offsets ==> 0 <= b < B64
    ensures Sort(offsets, IntLess()) == Bases(chain)
  {
    hide LogName, IndexName, LogBase, Sort, ChainOk;
    var sorted, bases := Sort(offsets, IntLess()), Bases(chain);
    IntOrder();
    SortIncreasing(offsets, IntLess());
    forall i, j | 0 <= i < j < |bases|
      ensures IntLess()(bases[i], bases[j])
    {
      BasesIncrease(chain, max, i, j);
    }
    forall b
      ensures b in sorted <==> b in bases
    {
      SortMembers(offsets, IntLess(), b);
      if b in bases {
        var i :| 0 <= i < |chain| && bases[i] == b;
        LogNameRoundTrip(chain[i].base);
        assert LogName(chain[i].base) in files;
      }
      if b in offsets {
        var name :| name in files && LogBase(name) == Some(b);
        assert HasBase(chain, b);
        var i :| 0 <= i < |chain| && chain[i].base == b;
        assert bases[i] == b;
      }
    }
    IncreasingUnique(sorted, bases, IntLess());
  }

  /** Everything a roll relies on and establishes, about the files and the chain. */
  lemma RollFacts(files: map<string, bytes>, chain: Chain, max: int, base: uint64)
    requires ChainOk(chain, max) && NoStrays(files, chain)
    requires chain[|chain| - 1].Size() >= max && base == chain[|chain| - 1].Next()
    ensures Opened(base).Ok() && Stored(files, Opened(base))
    ensures var grown := chain + [Opened(base)];
            && ChainOk(grown, max) && Contents(grown) == Contents(chain)
            && NoStrays(Created(Created(files, LogName(base)), IndexName(base)), grown)
  {
    hide ChainOk, NoStrays, Contents, Stored, Created;
    Rolled(chain, max);
    FreshNames(files, chain, max);
    StraysRolled(files, chain, Opened(base));
    OpenedOk(base, max);
  }

  // ---------- reading across segments ----------

  /** A read has taken what it can get from the first s payloads of the log. */
  ghost predicate Progress(log: seq<Payload>, oldest: nat, s: nat, offset: nat, maxCount: int,
                           got: seq<Message>)
  {
    var w := Window(|log|, oldest, offset, maxCount);
    && w.0 + |got| <= w.1
    && Page(log[w.0..w.0 + |got|], oldest + w.0) == Ok(got)
    && (|got| < maxCount ==> if s <= w.0 then got == [] else w.0 + |got| == s)
  }

  lemma ProgressStart(log: seq<Payload>, oldest: nat, offset: nat, maxCount: int)
    ensures Progress(log, oldest, |Contents([])|, offset, maxCount, [])
  {
    hide Page;
    var w := Window(|log|, oldest, offset, maxCount);
    assert log[w.0..w.0] == [];
    PageEmpty(oldest + w.0);
  }

  lemma ProgressEnd(log: seq<Payload>, oldest: nat, s: nat, offset: nat, maxCount: int,
                    got: seq<Message>)
    requires Progress(log, oldest, s, offset, maxCount, got)
    requires s == |log| || |got| >= maxCount
    ensures ReadResult(log, oldest, offset, maxCount) == Ok(got)
  {
    hide Page;
  }

  /** A segment that ends at or before the current offset has nothing to add. */
  lemma ProgressSkip(log: seq<Payload>, oldest: nat, s: nat, n: nat, offset: nat, maxCount: int,
                     got: seq<Message>)
    requires s + n <= |log| && |got| < maxCount
    requires Progress(log, oldest, s, offset, maxCount, got)
    requires oldest + s + n <= offset + |got|
    ensures Progress(log, oldest, s + n, offset, maxCount, got)
  {
    hide Page;
  }

  /** The window of the next segment is the part of the log's window that lies in it. */
  lemma WindowStep(total: nat, oldest: nat, s: nat, n: nat, offset: nat, maxCount: int, k: nat)
    requires s + n <= total && k < maxCount
    requires var w := Window(total, oldest, offset, maxCount);
             w.0 + k <= w.1 && if s <= w.0 then k == 0 else w.0 + k == s
    requires oldest + s + n > offset + k
    ensures var w := Window(total, oldest, offset, maxCount);
            var u := Window(n, oldest + s, offset + k, maxCount - k);
            var m := u.1 - u.0;
            && (m > 0 ==> s + u.0 == w.0 + k)
            && w.0 + k + m <= w.1
            && (k + m < maxCount
                ==> if s + n <= w.0 then k + m == 0 else w.0 + k + m == s + n)
  {
  }

  /** Reading the next segment for the rest of the count continues the page. */
  lemma ProgressRead(log: seq<Payload>, oldest: nat, s: nat, ps: seq<Payload>, offset: nat,
                     maxCount: int, got: seq<Message>)
    requires s + |ps| <= |log| && log[s..s + |ps|] == ps
    requires |got| < maxCount && Progress(log, oldest, s, offset, maxCount, got)
    requires oldest + s + |ps| > offset + |got|
    ensures var more := ReadResult(ps, oldest + s, offset + |got|, maxCount - |got|);
            if more.Ok? then Progress(log, oldest, s + |ps|, offset, maxCount, got + more.value)
            else ReadResult(log, oldest, offset, maxCount) == Panic
  {
    hide Window, Page;
    WindowStep(|log|, oldest, s, |ps|, offset, maxCount, |got|);
    var w := Window(|log|, oldest, offset, maxCount);
    var u := Window(|ps|, oldest + s, offset + |got|, maxCount - |got|);
    var from := w.0 + |got|;
    var to := from + u.1 - u.0;
    if u.0 == u.1 {
      EmptyResult(ps, oldest + s + u.0, u.0);
      assert got + [] == got;
    } else {
      SubSlice(log, s, ps, u.0, u.1);
      PageLength(ps[u.0..u.1], oldest + from);
      assert log[w.0..to] == log[w.0..from] + log[from..to];
      PageConcat(log[w.0..from], log[from..to], oldest + w.0);
      assert log[w.0..w.1] == log[w.0..to] + log[to..w.1];
      PageConcat(log[w.0..to], log[to..w.1], oldest + w.0);
    }
  }

  lemma SubSlice(log: seq<Payload>, s: nat, ps: seq<Payload>, a: nat, b: nat)
    requires s + |ps| <= |log| && log[s..s + |ps|] == ps && a <= b <= |ps|
    ensures log[s + a..s + b] == ps[a..b]
  {
    var part := log[s..s + |ps|];
    assert forall i :: 0 <= i < |ps| ==> part[i] == log[s + i];
  }

  lemma EmptyResult(ps: seq<Payload>, first: nat, i: nat)
    requires i <= |ps|
    ensures Page(ps[i..i], first) == Ok([])
  {
    PageEmpty(first);
    assert ps[i..i] == [];
  }

  /** What reading the chain from an offset returns. */
  ghost function ChainRead(chain: Chain, offset: nat, maxCount: int): (r: Outcome<seq<Message>>)
    requires chain != []
    ensures r.Ok? || r == Panic
  {
    ReadResult(Contents(chain), chain[0].base, offset, maxCount)
  }

  /** A read has gone through the first i segments. */
  ghost predicate ReadThrough(chain: Chain, i: nat, offset: nat, maxCount: int, got: seq<Message>)
    requires i <= |chain| && chain != []
  {
    Progress(Contents(chain), chain[0].base, |Contents(chain[..i])|, offset, maxCount, got)
  }

  lemma ReadBegins(chain: Chain, offset: nat, maxCount: int)
    requires chain != []
    ensures ReadThrough(chain, 0, offset, maxCount, [])
  {
    hide Progress, Contents;
    ProgressStart(Contents(chain), chain[0].base, offset, maxCount);
    assert chain[..0] == [];
  }

  lemma ReadContinues(chain: Chain, i: nat, offset: nat, maxCount: int, got: seq<Message>)
    requires Linked(chain) && i < |chain| && |got| < maxCount
    requires ReadThrough(chain, i, offset, maxCount, got)
    ensures chain[i].Next() <= offset + |got| ==> ReadThrough(chain, i + 1, offset, maxCount, got)
    ensures chain[i].Next() > offset + |got|
        ==> var more := ReadResult(chain[i].payloads, chain[i].base, offset + |got|,
                                   maxCount - |got|);
            if more.Ok? then ReadThrough(chain, i + 1, offset, maxCount, got + more.value)
            else ChainRead(chain, offset, maxCount) == Panic
  {
    hide Progress, Contents, ReadResult, Linked;
    BaseOffset(chain, i);
    SegmentSlice(chain, i);
    ContentsStep(chain, i);
    var s := |Contents(chain[..i])|;
    if chain[i].Next() <= offset + |got| {
      ProgressSkip(Contents(chain), chain[0].base, s, |chain[i].payloads|, offset, maxCount, got);
    } else {
      ProgressRead(Contents(chain), chain[0].base, s, chain[i].payloads, offset, maxCount, got);
    }
  }

  lemma ReadEnds(chain: Chain, i: nat, offset: nat, maxCount: int, got: seq<Message>)
    requires chain != [] && i <= |chain| && (i == |chain| || |got| >= maxCount)
    requires ReadThrough(chain, i, offset, maxCount, got)
    ensures ChainRead(chain, offset, maxCount) == Ok(got)
  {
    hide Progress, Contents, ReadResult;
    assert i == |chain| ==> chain[..i] == chain;
    ProgressEnd(Contents(chain), chain[0].base, |Contents(chain[..i])|, offset, maxCount, got);
  }

  /** A single offset is read from the last segment that starts at or before it. */
  lemma ReadInSegment(chain: Chain, i: nat, offset: nat)
    requires Linked(chain) && i < |chain| && chain[i].base <= offset
    requires i < |chain| - 1 ==> offset < chain[i + 1].base
    ensures ReadOne(Contents(chain), chain[0].base, offset)
         == ReadOne(chain[i].payloads, chain[i].base, offset)
  {
    hide Contents, Linked, SegState.Next, ReadOne;
    BaseOffset(chain, i);
    SegmentSlice(chain, i);
    NextIsLength(chain);
    if i < |chain| - 1 {
      LinkAt(chain, i);
    }
    ReadInSlice(Contents(chain), chain[0].base, |Contents(chain[..i])|, chain[i].payloads, offset);
  }

  lemma LinkAt(chain: Chain, i: nat)
    requires Linked(chain) && i < |chain| - 1
    ensures chain[i].base + |chain[i].payloads| == chain[i + 1].base
  {
  }

  lemma ReadInSlice(log: seq<Payload>, oldest: nat, s: nat, ps: seq<Payload>, offset: nat)
    requires s + |ps| <= |log| && log[s..s + |ps|] == ps && oldest + s <= offset
    requires offset < oldest + s + |ps| || s + |ps| == |log|
    ensures ReadOne(log, oldest, offset) == ReadOne(ps, oldest + s, offset)
  {
    hide Decodable, Labelled;
  }
}
