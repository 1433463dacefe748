/**
  Whole runs of a commit log: from an empty directory, every sequence of appends, reads and
  reopenings gives the replies of the append-only sequence in LogSpec.
 */
module LogRuns {
  import opened Bytes
  import opened Outcomes
  import opened Files
  import opened Record
  import opened Framing
  import opened Decimal
  import opened Segments
  import opened OffsetIndex
  import opened Chains
  import opened CommitLogs
  import opened LogSpec

  datatype Op =
    | Append(timestamp: int64, key: bytes, value: bytes)
    | Read(offset: uint64)
    | ReadFrom(offset: uint64, maxCount: int)
    | Reopen(lost: set<string>)   // close, remove these index files, open again

  datatype Reply =
    | Appended(result: Outcome<uint64>)
    | One(message: Outcome<Message>)
    | Page(messages: Outcome<seq<Message>>)
    | Reopened

  // ---------- the specification ----------

  function NextLog(log: Messages, op: Op): Messages {
    match op
    case Append(t, k, v) => if KeyLen(k) <= 65517 then log + [AsStored(t, k, v)] else log
    case _ => log
  }

  function ReplyTo(log: Messages, op: Op): Reply
    requires |log| < B64
  {
    match op
    case Append(_, k, _) => Appended(if KeyLen(k) <= 65517 then Ok(|log|) else Panic)
    case Read(o) => One(if o < |log| then Ok(Tagged(o, log[o])) else Err(NotFound))
    case ReadFrom(o, n) => Page(Ok(Fetch(log, 0, o, n)))
    case Reopen(_) => Reopened
  }

  function LogAfter(ops: seq<Op>): (log: Messages)
    ensures |log| <= |ops|
  {
    if ops == [] then [] else NextLog(LogAfter(ops[..|ops| - 1]), ops[|ops| - 1])
  }

  function Replies(ops: seq<Op>): (replies: seq<Reply>)
    requires |ops| < B64
    ensures |replies| == |ops|
  {
    if ops == [] then []
    else
      var before := ops[..|ops| - 1];
      Replies(before) + [ReplyTo(LogAfter(before), ops[|ops| - 1])]
  }

  /** No message that has been stored ever changes or moves. */
  lemma {:induction false} AppendOnly(ops: seq<Op>, n: nat)
    requires n <= |ops|
    ensures LogAfter(ops[..n]) <= LogAfter(ops)
  {
    if n < |ops| {
      AppendOnly(ops[..|ops| - 1], n);
      assert ops[..|ops| - 1][..n] == ops[..n];
    } else {
      assert ops[..n] == ops;
    }
  }

  // ---------- closing and opening ----------

  /** The directory after some index files have been removed. */
  function WithoutIndexes(files: map<string, bytes>, lost: set<string>): map<string, bytes> {
    map name | name in files && !(name in lost && HasSuffix(name, INDEX)) :: files[name]
  }

  /** The chain that is left: a segment without an index file has no record indexed. */
  ghost function Unindexed(s: SegState, lost: set<string>): SegState {
    if IndexName(s.base) in lost then s.(covered := |s.payloads|) else s
  }

  ghost function AllUnindexed(chain: Chain, lost: set<string>): (r: Chain)
    ensures |r| == |chain|
    ensures forall i :: 0 <= i < |chain| ==> r[i] == Unindexed(chain[i], lost)
  {
    if chain == [] then []
    else AllUnindexed(chain[..|chain| - 1], lost) + [Unindexed(chain[|chain| - 1], lost)]
  }

  lemma {:induction false} SameContents(chain: Chain, lost: set<string>)
    ensures Contents(AllUnindexed(chain, lost)) == Contents(chain)
  {
    if chain != [] {
      var q := chain[..|chain| - 1];
      SameContents(q, lost);
      assert AllUnindexed(chain, lost)[..|q|] == AllUnindexed(q, lost);
    }
  }

  lemma SuffixOfNames(base: uint64)
    ensures HasSuffix(IndexName(base), INDEX) && !HasSuffix(LogName(base), INDEX)
  {
    hide Padded;
    assert IndexName(base)[20..] == INDEX;
    assert LogName(base)[18..] != INDEX by {
      assert LogName(base)[23] == 'g';
    }
  }

  lemma SegmentUnindexed(files: map<string, bytes>, s: SegState, lost: set<string>)
    requires Stored(files, s) && LogName(s.base) in files
    ensures var files', s' := WithoutIndexes(files, lost), Unindexed(s, lost);
            && LogName(s.base) in files' && Stored(files', s')
            && (s.Ok() ==> s'.Ok())
  {
    hide LogName, IndexName, HasSuffix, Addressable, Frames;
    SuffixOfNames(s.base);
  }

  lemma NamesUnindexed(files: map<string, bytes>, chain: Chain, lost: set<string>)
    requires NoStrays(files, chain)
    ensures NoStrays(WithoutIndexes(files, lost), AllUnindexed(chain, lost))
  {
    hide LogName, IndexName, LogBase, HasSuffix;
    var files', chain' := WithoutIndexes(files, lost), AllUnindexed(chain, lost);
    forall i | 0 <= i < |chain'|
      ensures LogName(chain'[i].base) in files'
    {
      SuffixOfNames(chain[i].base);
    }
    forall base | HasBase(chain, base)
      ensures HasBase(chain', base)
    {
      var i :| 0 <= i < |chain| && chain[i].base == base;
      assert chain'[i].base == base;
    }
  }

  lemma ChainUnindexed(chain: Chain, max: int, lost: set<string>)
    requires ChainOk(chain, max)
    ensures ChainOk(AllUnindexed(chain, lost), max)
  {
    hide IndexName, Addressable, Frames;
    var chain' := AllUnindexed(chain, lost);
    forall i | 0 <= i < |chain'|
      ensures chain'[i].Ok() && StartsBelow(chain'[i], max)
      ensures chain'[i].Next() == chain[i].Next() && chain'[i].Size() == chain[i].Size()
    {
    }
  }

  /** Losing index files leaves a directory that holds the same log. */
  lemma IndexesLost(files: map<string, bytes>, chain: Chain, max: int, lost: set<string>)
    requires OnDisk(files, chain) && ChainOk(chain, max)
    ensures OnDisk(WithoutIndexes(files, lost), AllUnindexed(chain, lost))
    ensures ChainOk(AllUnindexed(chain, lost), max)
  {
    hide LogName, IndexName, WithoutIndexes, Unindexed, Stored, NoStrays, ChainOk;
    NamesUnindexed(files, chain, lost);
    ChainUnindexed(chain, max, lost);
    forall i | 0 <= i < |chain|
      ensures Stored(WithoutIndexes(files, lost), AllUnindexed(chain, lost)[i])
    {
      LogNamePresent(files, chain, i);
      SegmentUnindexed(files, chain[i], lost);
    }
  }

  lemma LogNamePresent(files: map<string, bytes>, chain: Chain, i: nat)
    requires NoStrays(files, chain) && i < |chain|
    ensures LogName(chain[i].base) in files
  {
  }

  /** Closing a log and opening it again, with some index files gone, keeps every message. */
  method CloseAndReopen(cl: CommitLog, lost: set<string>) returns (r: CommitLog)
    requires cl.Valid()
    modifies cl.Repr
    ensures r.Valid() && fresh(r.Repr - {cl.dir}) && r.dir == cl.dir
    ensures r.maxSegmentBytes == cl.maxSegmentBytes
    ensures r.Log() == old(cl.Log()) && r.Oldest() == old(cl.Oldest())
    ensures r.Chain() == AllUnindexed(old(cl.Chain()), lost)
  {
    hide CommitLog.Valid, ChainOk, OnDisk, Contents, WithoutIndexes, Linked, NextOffset;
    ghost var chain := cl.Chain();
    cl.Counters();
    LeavesOnDisk(cl);
    cl.dir.files := WithoutIndexes(cl.dir.files, lost);
    IndexesLost(old(cl.dir.files), chain, cl.maxSegmentBytes, lost);
    LimitFits(chain, cl.maxSegmentBytes);
    SameContents(chain, lost);
    var result := NewCommitLog(cl.dir, cl.maxSegmentBytes, AllUnindexed(chain, lost));
    match result {
      case Ok(log) =>
        r := log;
        assert r.Chain()[0].base == chain[0].base;
    }
  }

  /** A valid commit log is a well-formed directory at every moment. */
  lemma LeavesOnDisk(cl: CommitLog)
    requires cl.Valid()
    ensures OnDisk(cl.dir.files, cl.Chain()) && ChainOk(cl.Chain(), cl.maxSegmentBytes)
  {
    hide Segment.Valid, Stored, ChainOk, NoStrays;
    forall i | 0 <= i < |cl.segments|
      ensures Stored(cl.dir.files, cl.Chain()[i])
    {
      cl.segments[i].Facts();
    }
  }

  // ---------- running the real log ----------

  /** What a run may ask: appended records fit the 4-byte length fields. */
  predicate Sized(op: Op) {
    op.Append? ==> Fits(op.key, op.value)
  }

  /** The real log stands for these messages and starts at offset 0. */
  ghost predicate Implements(cl: CommitLog, log: Messages)
    reads cl, cl.segments
  {
    cl.segments != [] && cl.Oldest() == 0 && Represents(cl.Log(), log)
  }

  /** A valid log object that stands for these messages. */
  ghost predicate Serves(cl: CommitLog, log: Messages)
    reads cl, cl.Repr
  {
    cl in cl.Repr && cl.Valid() && Implements(cl, log)
  }

  lemma LogLength(cl: CommitLog, log: Messages)
    requires Serves(cl, log)
    ensures |log| < B64
  {
    hide CommitLog.Valid, Represents, Contents;
    cl.Counters();
    RepresentsLength(cl.Log(), log);
  }

  method RunAppend(cl: CommitLog, timestamp: int64, key: bytes, value: bytes, ghost log: Messages)
    returns (r: Outcome<uint64>)
    requires cl.Valid() && Implements(cl, log) && |log| + 1 < B64 && Fits(key, value)
    modifies cl.Repr
    ensures cl.Valid() && fresh(cl.Repr - old(cl.Repr))
    ensures Implements(cl, NextLog(log, Op.Append(timestamp, key, value)))
    ensures Appended(r) == ReplyTo(log, Op.Append(timestamp, key, value))
  {
    hide CommitLog.Valid, Represents, Encodable, PayloadOf, Contents;
    RepresentsLength(cl.Log(), log);
    AppendRepresents(cl.Log(), log, timestamp, key, value);
    r := cl.Append(timestamp, key, value);
    cl.Counters();
  }

  lemma RepresentsLength(ps: seq<Payload>, log: Messages)
    requires Represents(ps, log)
    ensures |ps| == |log|
  {
  }

  method RunRead(cl: CommitLog, offset: uint64, ghost log: Messages) returns (r: Outcome<Message>)
    requires cl.Valid() && Implements(cl, log) && |log| < B64
    modifies cl.Cursors()
    ensures cl.Valid() && Implements(cl, log) && One(r) == ReplyTo(log, Op.Read(offset))
  {
    hide CommitLog.Valid, Represents, Contents, ReadOne;
    cl.Basics();
    ReadOneFetches(cl.Log(), log, 0, offset);
    r := cl.Read(offset);
  }

  method RunReadFrom(cl: CommitLog, offset: uint64, maxCount: int, ghost log: Messages)
    returns (r: Outcome<seq<Message>>)
    requires cl.Valid() && Implements(cl, log) && |log| < B64
    modifies cl.Cursors()
    ensures cl.Valid() && Implements(cl, log) && Page(r) == ReplyTo(log, Op.ReadFrom(offset, maxCount))
  {
    hide CommitLog.Valid, Represents, Contents, ReadResult, Fetch;
    cl.Basics();
    ReadFetches(cl.Log(), log, 0, offset, maxCount);
    r := cl.ReadFrom(offset, maxCount);
  }

  method RunReopen(cl: CommitLog, lost: set<string>, ghost log: Messages) returns (after: CommitLog)
    requires cl.Valid() && Implements(cl, log)
    modifies cl.Repr
    ensures after.Valid() && fresh(after.Repr - old(cl.Repr)) && Implements(after, log)
  {
    hide CommitLog.Valid, Represents, Contents;
    cl.Basics();
    after := CloseAndReopen(cl, lost);
    after.Basics();
  }

  method Step(cl: CommitLog, op: Op, ghost log: Messages) returns (after: CommitLog, reply: Reply)
    requires cl.Valid() && Implements(cl, log) && |log| + 1 < B64 && Sized(op)
    modifies cl.Repr
    ensures after.Valid() && fresh(after.Repr - old(cl.Repr))
    ensures Implements(after, NextLog(log, op)) && reply == ReplyTo(log, op)
  {
    hide CommitLog.Valid, Implements;
    cl.Basics();
    after := cl;
    match op {
      case Append(t, k, v) =>
        var r := RunAppend(cl, t, k, v, log);
        reply := Appended(r);
      case Read(o) =>
        var m := RunRead(cl, o, log);
        reply := One(m);
      case ReadFrom(o, n) =>
        var ms := RunReadFrom(cl, o, n, log);
        reply := Page(ms);
      case Reopen(lost) =>
        after := RunReopen(cl, lost, log);
        reply := Reopened;
    }
  }

  /** Every run from an empty directory gives the replies of the append-only sequence. */
  method Run(maxSegmentBytes: int, ops: seq<Op>) returns (replies: seq<Reply>)
    requires 1 <= maxSegmentBytes <= B32
    requires |ops| < B64 - 1 && forall i :: 0 <= i < |ops| ==> Sized(ops[i])
    ensures replies == Replies(ops)
  {
    hide CommitLog.Valid, Implements, Sized, NextLog, ReplyTo;
    var dir := new Directory();
    var cl := StartLog(dir, maxSegmentBytes);
    replies := [];
    var i := 0;
    while i < |ops|
      invariant 0 <= i <= |ops|
      invariant cl.Valid() && fresh(cl.Repr) && Implements(cl, LogAfter(ops[..i]))
      invariant replies == Replies(ops[..i])
    {
      assert ops[..i + 1][..i] == ops[..i];
      var reply: Reply;
      cl, reply := Step(cl, ops[i], LogAfter(ops[..i]));
      replies := replies + [reply];
      i := i + 1;
    }
    assert ops[..i] == ops;
  }

  /** A log that was opened on an empty directory serves no messages yet. */
  lemma StartsEmpty(cl: CommitLog)
    requires cl.Valid() && cl.Chain() == [Opened(0)]
    ensures Serves(cl, [])
  {
    hide CommitLog.Valid;
    cl.Basics();
    cl.Counters();
    assert cl.Chain()[..0] == [];
  }

  method StartLog(dir: Directory, maxSegmentBytes: int) returns (cl: CommitLog)
    requires 1 <= maxSegmentBytes <= B32 && dir.files == map[]
    modifies dir
    ensures cl.Valid() && fresh(cl.Repr - {dir}) && Implements(cl, [])
  {
    hide CommitLog.Valid, Implements;
    NothingOnDisk();
    var result := NewCommitLog(dir, maxSegmentBytes, []);
    match result {
      case Ok(log) =>
        cl := log;
        StartsEmpty(cl);
    }
  }

  lemma NothingOnDisk()
    ensures OnDisk(map[], [])
  {
  }
}
