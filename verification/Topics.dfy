/**
  Topics and their manager (broker/topic/topic.go): partitions over real commit logs, the
  routing of produced messages, and topic creation.
 */
module Topics {
  import opened Bytes
  import opened Outcomes
  import opened Files
  import opened Record
  import opened Decimal
  import opened Segments
  import opened Chains
  import opened CommitLogs
  import opened LogSpec
  import opened LogRuns
  import opened TopicSpec
  import opened Responses
  import opened Sorting

  datatype Partition = Partition(id: int, log: CommitLog)

  /** The partitions serve these logs, and no two of them share an object. */
  ghost predicate AllServe(partitions: seq<Partition>, logs: seq<Messages>)
    reads set p <- partitions :: p.log, set p <- partitions, o <- p.log.Repr :: o
  {
    && |partitions| == |logs|
    && (forall i :: 0 <= i < |partitions| ==> Serves(partitions[i].log, logs[i]))
    && (forall i, j :: 0 <= i < j < |partitions|
          ==> partitions[i].log.Repr !! partitions[j].log.Repr)
  }

  /** The objects of the partitions, all within one set. */
  ghost predicate Within(partitions: seq<Partition>, repr: set<object>)
    reads set p <- partitions :: p.log
  {
    forall i :: 0 <= i < |partitions| ==> partitions[i].log in repr && partitions[i].log.Repr <= repr
  }

  class Topic {
    const name: bytes
    const partitions: seq<Partition>
    var rrCounter: uint64
    ghost var Repr: set<object>

    ghost function Handles(): set<object> {
      set p <- partitions :: p.log
    }

    ghost predicate Owns()
      reads this, Handles()
    {
      && this in Repr
      && forall i :: 0 <= i < |partitions|
           ==> partitions[i].log in Repr && partitions[i].log.Repr <= Repr - {this}
    }

    ghost predicate Valid(s: TopicState)
      reads this, Repr, Handles()
    {
      Owns() && rrCounter == s.counter && AllServe(partitions, s.logs) && Ids(partitions) == s.ids
    }

    constructor (name: bytes, partitions: seq<Partition>, ghost repr: set<object>)
      ensures this.name == name && this.partitions == partitions && rrCounter == 0
      ensures Repr == {this} + repr
    {
      this.name, this.partitions, this.rrCounter := name, partitions, 0;
      this.Repr := {this} + repr;
    }

    /** Partition.Append on one of the topic's partitions. */
    method AppendTo(p: nat, timestamp: int64, key: bytes, value: bytes, ghost s: TopicState)
      returns (r: Outcome<uint64>)
      requires Valid(s) && p < |partitions| && Fits(key, value) && |s.logs[p]| + 1 < B64
      modifies Repr
      ensures fresh(Repr - old(Repr)) && rrCounter == old(rrCounter)
      ensures var op := Op.Append(timestamp, key, value);
              Valid(s.(logs := s.logs[p := NextLog(s.logs[p], op)]))
              && Appended(r) == ReplyTo(s.logs[p], op)
    {
      hide CommitLog.Valid, Implements, NextLog, ReplyTo, Fits;
      r := RunAppend(partitions[p].log, timestamp, key, value, s.logs[p]);
      partitions[p].log.Basics();
      Repr := Repr + partitions[p].log.Repr;
      ghost var op := Op.Append(timestamp, key, value);
      ghost var logs := s.logs[p := NextLog(s.logs[p], op)];
      forall i | 0 <= i < |partitions|
        ensures Serves(partitions[i].log, logs[i])
      {
        assert i != p ==> old(Serves(partitions[i].log, s.logs[i]));
      }
    }

    /** Manager.Produce, once the topic is found. */
    method Produce(hash: Hash, m: Produced, ghost s: TopicState) returns (r: Outcome<(int, nat)>)
      requires Valid(s) && Fits(m.key, m.value)
      requires forall p :: 0 <= p < |s.logs| ==> |s.logs[p]| + 1 < B64
      modifies Repr
      ensures fresh(Repr - old(Repr))
      ensures Valid(ProduceNext(s, hash, m)) && r == ProduceReply(s, hash, m)
    {
      hide AllServe, Fits;
      SameCount(s);
      if |partitions| == 0 {
        return Err(NoPartitions);
      }
      var p: int;
      if |m.key| > 0 {
        p := hash(m.key) % |partitions|;
      } else {
        rrCounter := (rrCounter + 1) % B64;
        p := GoRem(Signed64(rrCounter), |partitions|);
      }
      ghost var counted := s.(counter := NextCounter(s.counter, m.key));
      if p < 0 {
        return Panic;
      }
      var offset := AppendTo(p, m.timestamp, m.key, m.value, counted);
      match offset {
        case Ok(o) => return Outcome.Ok((p, o));
        case Err(e) => return Err(e);
        case Panic =>
          assert s.logs[p := s.logs[p]] == s.logs;
          return Panic;
      }
    }

    lemma Ownership(s: TopicState)
      requires Valid(s)
      ensures this in Repr && Handles() <= Repr
    {
    }

    lemma SameCount(s: TopicState)
      requires Valid(s)
      ensures |partitions| == |s.logs|
    {
    }

    /** Manager.Consume, once the topic is found. */
    method Consume(partition: int, offset: uint64, maxCount: int, ghost s: TopicState)
      returns (r: Outcome<seq<Message>>)
      requires Valid(s)
      modifies Repr
      ensures Valid(s) && Repr == old(Repr)
      ensures r == if 0 <= partition < |s.logs|
                   then Outcome.Ok(LogSpec.Fetch(s.logs[partition], 0, offset, maxCount))
                   else Err(InvalidPartition)
    {
      hide CommitLog.Valid, Implements, LogSpec.Fetch;
      if partition < 0 || partition >= |partitions| {
        return Err(InvalidPartition);
      }
      var log := partitions[partition].log;
      log.Basics();
      LogLength(log, s.logs[partition]);
      r := RunReadFrom(log, offset, maxCount, s.logs[partition]);
      log.Basics();
    }

    method PartitionCount(p: nat, ghost s: TopicState) returns (n: uint64)
      requires Valid(s) && p < |partitions|
      ensures n == |s.logs[p]|
    {
      hide CommitLog.Valid, Represents;
      n := partitions[p].log.MessageCount();
      RepresentsLength(partitions[p].log.Log(), s.logs[p]);
    }

    /** The message total of handleListTopics, a uint64 sum. */
    method TotalMessages(ghost s: TopicState) returns (n: uint64)
      requires Valid(s)
      ensures n == Total(s.logs) % B64
    {
      hide CommitLog.Valid, Implements;
      SameCount(s);
      n := 0;
      var i := 0;
      assert s.logs[..0] == [];
      while i < |partitions|
        invariant 0 <= i <= |partitions|
        invariant Valid(s)
        invariant n == Total(s.logs[..i]) % B64
      {
        var count := PartitionCount(i, s);
        assert s.logs[..i + 1][..i] == s.logs[..i] && s.logs[..i + 1][i] == s.logs[i];
        WrapAdd(Total(s.logs[..i]), count);
        n := (n + count) % B64;
        i := i + 1;
      }
      assert s.logs[..i] == s.logs;
    }
  }

  lemma WrapAdd(a: nat, b: nat)
    ensures (a % B64 + b) % B64 == (a + b) % B64
  {
  }

  // ---------- directories ----------

  /** A topic's directory: the directories of its partitions by name. */
  type TopicDir = map<string, Directory>

  const PARTITION: string := "partition-"

  function PartitionName(id: int): string { PARTITION + Itoa(id) }

  /** The id NewManager reads from a directory entry, if it takes the entry at all. */
  function PartitionId(name: string): Option<int64> {
    if |PARTITION| <= |name| && name[..|PARTITION|] == PARTITION then Atoi(name[|PARTITION|..]) else None
  }

  lemma PartitionNameRoundTrip(id: int64)
    ensures PartitionId(PartitionName(id)) == Some(id)
  {
    hide Itoa, Atoi;
    ItoaRoundTrip(id);
    assert PartitionName(id)[..|PARTITION|] == PARTITION;
    assert PartitionName(id)[|PARTITION|..] == Itoa(id);
  }

  function Started(chain: Chain): Chain { if chain == [] then [Opened(0)] else chain }

  /** What is stored under a partition's name: the chain, or nothing at all. */
  ghost predicate Holds(tDir: TopicDir, name: string, chain: Chain, max: int)
    reads tDir.Values
  {
    if name in tDir
    then OnDisk(tDir[name].files, chain) && (chain == [] || ChainOk(chain, max))
    else chain == []
  }

  ghost predicate OpenIn(p: Partition, dir: Directory, max: int) {
    p.log.dir == dir && p.log.maxSegmentBytes == max
  }

  function Ids(partitions: seq<Partition>): (ids: seq<int>)
    ensures |ids| == |partitions| && forall i :: 0 <= i < |ids| ==> ids[i] == partitions[i].id
  {
    seq(|partitions|, i requires 0 <= i < |partitions| => partitions[i].id)
  }

  function NamesOf(ids: seq<int>): (names: seq<string>)
    ensures |names| == |ids| && forall i :: 0 <= i < |ids| ==> names[i] == PartitionName(ids[i])
  {
    seq(|ids|, i requires 0 <= i < |ids| => PartitionName(ids[i]))
  }

  predicate IsId(id: int) { -0x8000_0000_0000_0000 <= id < 0x8000_0000_0000_0000 }

  /** The ids of a topic's partitions: counted when it was created, in name order once reloaded. */
  ghost predicate Numbered(ids: seq<int>) {
    && (forall i :: 0 <= i < |ids| ==> IsId(ids[i]))
    && ((forall i :: 0 <= i < |ids| ==> ids[i] == i) || Increasing(NamesOf(ids), NameLess))
  }

  /** A topic's directory has one entry for each of its partitions, and nothing else. */
  ghost predicate Backed(tDir: TopicDir, partitions: seq<Partition>, max: int) {
    && Numbered(Ids(partitions))
    && (forall name :: name in tDir
          <==> exists i :: 0 <= i < |partitions| && name == PartitionName(partitions[i].id))
    && forall i :: 0 <= i < |partitions|
         ==> OpenIn(partitions[i], tDir[PartitionName(partitions[i].id)], max)
  }

  /** Partitions that were only ever counted. */
  ghost predicate NewlyBacked(tDir: TopicDir, partitions: seq<Partition>, max: int) {
    Backed(tDir, partitions, max) && forall i :: 0 <= i < |partitions| ==> partitions[i].id == i
  }

  lemma NewlyBackedSnoc(tDir: TopicDir, partitions: seq<Partition>, max: int, p: Partition, dir: Directory)
    requires NewlyBacked(tDir, partitions, max) && OpenIn(p, dir, max) && p.id == |partitions|
    requires IsId(p.id) && PartitionName(p.id) !in tDir
    ensures NewlyBacked(tDir[PartitionName(p.id) := dir], partitions + [p], max)
  {
    hide PartitionName, OpenIn;
    var all, tDir' := partitions + [p], tDir[PartitionName(p.id) := dir];
    forall i | 0 <= i < |all|
      ensures IsId(all[i].id) && all[i].id == i && PartitionName(all[i].id) in tDir'
      ensures OpenIn(all[i], tDir'[PartitionName(all[i].id)], max)
    {
      if i < |partitions| {
        assert Ids(partitions)[i] == i && PartitionName(partitions[i].id) in tDir;
        assert all[i] == partitions[i];
      }
    }
    forall name | name in tDir'
      ensures exists i :: 0 <= i < |all| && name == PartitionName(all[i].id)
    {
      if name in tDir {
        var i :| 0 <= i < |partitions| && name == PartitionName(partitions[i].id);
        assert all[i] == partitions[i];
      } else {
        assert all[|partitions|] == p;
      }
    }
  }

  /** NewPartition: makes the partition's directory if it is missing and opens its log. */
  method NewPartition(tDir: TopicDir, id: int, maxSegSize: int, ghost chain: Chain)
    returns (p: Partition, after: TopicDir)
    requires 1 <= maxSegSize <= B32 && Holds(tDir, PartitionName(id), chain, maxSegSize)
    modifies set name | name in tDir && name == PartitionName(id) :: tDir[name]
    ensures p.id == id && p.log.Valid() && p.log.Chain() == Started(chain)
    ensures PartitionName(id) in after && OpenIn(p, after[PartitionName(id)], maxSegSize)
            && after == tDir[PartitionName(id) := after[PartitionName(id)]]
            && fresh(p.log.Repr - {after[PartitionName(id)]})
    ensures if PartitionName(id) in tDir then after == tDir else fresh(after[PartitionName(id)])
  {
    hide OnDisk, ChainOk, CommitLog.Valid, PartitionName, Started, OpenIn;
    var name := PartitionName(id);
    var pDir: Directory;
    if name in tDir {
      pDir := tDir[name];
    } else {
      NothingOnDisk();
      pDir := new Directory();
    }
    after := tDir[name := pDir];
    p := OpenLog(pDir, id, maxSegSize, chain);
  }

  method OpenLog(pDir: Directory, id: int, maxSegSize: int, ghost chain: Chain) returns (p: Partition)
    requires 1 <= maxSegSize <= B32
    requires OnDisk(pDir.files, chain) && (chain == [] || ChainOk(chain, maxSegSize))
    modifies pDir
    ensures p.id == id && p.log.Valid() && p.log.Chain() == Started(chain)
    ensures OpenIn(p, pDir, maxSegSize) && fresh(p.log.Repr - {pDir})
  {
    hide OnDisk, ChainOk, CommitLog.Valid;
    var result := NewCommitLog(pDir, maxSegSize, chain);
    match result {
      case Ok(log) => p := Partition(id, log);
    }
  }

  lemma AllServeSnoc(partitions: seq<Partition>, logs: seq<Messages>, repr: set<object>,
                     p: Partition, log: Messages)
    requires AllServe(partitions, logs) && Within(partitions, repr)
    requires Serves(p.log, log) && p.log.Repr !! repr
    ensures AllServe(partitions + [p], logs + [log])
    ensures Within(partitions + [p], repr + p.log.Repr)
  {
    hide CommitLog.Valid, Implements;
    var all, logs' := partitions + [p], logs + [log];
    assert forall i :: 0 <= i < |partitions| ==> all[i] == partitions[i] && logs'[i] == logs[i];
  }

  /** One round of the loop in CreateTopic. */
  method AddPartition(tDir: TopicDir, partitions: seq<Partition>, maxSegSize: int,
                      ghost logs: seq<Messages>, ghost repr: set<object>)
    returns (p: Partition, after: TopicDir)
    requires 1 <= maxSegSize <= B32 && PartitionName(|partitions|) !in tDir
    requires AllServe(partitions, logs) && Within(partitions, repr)
    ensures p.id == |partitions| && fresh(p.log.Repr)
    ensures AllServe(partitions + [p], logs + [[]])
    ensures Within(partitions + [p], repr + p.log.Repr)
    ensures var name := PartitionName(|partitions|);
            name in after && OpenIn(p, after[name], maxSegSize) && after == tDir[name := after[name]]
  {
    hide AllServe, CommitLog.Valid, PartitionName, Implements, OpenIn, Serves, OnDisk, ChainOk;
    p, after := NewPartition(tDir, |partitions|, maxSegSize, []);
    StartsEmpty(p.log);
    AllServeSnoc(partitions, logs, repr, p, []);
  }

  lemma NoneServe()
    ensures AllServe([], TopicSpec.Fresh(0).logs) && Within([], {})
  {
  }

  lemma IdsCounted(tDir: TopicDir, partitions: seq<Partition>, max: int)
    requires NewlyBacked(tDir, partitions, max)
    ensures Ids(partitions) == FirstIds(|partitions|)
  {
    hide Backed;
  }

  lemma NoneBacked(max: int)
    ensures NewlyBacked(map[], [], max)
  {
  }

  lemma NewName(tDir: TopicDir, partitions: seq<Partition>, max: int)
    requires NewlyBacked(tDir, partitions, max) && IsId(|partitions|)
    ensures PartitionName(|partitions|) !in tDir
  {
    hide PartitionName, OpenIn;
    var k := |partitions|;
    PartitionNameRoundTrip(k);
    if PartitionName(k) in tDir {
      var i :| 0 <= i < k && PartitionName(k) == PartitionName(partitions[i].id);
      PartitionNameRoundTrip(i);
    }
  }

  /** The loop of CreateTopic over the partitions of a new topic. */
  method CreatePartitions(n: int64, maxSegSize: int)
    returns (tDir: TopicDir, partitions: seq<Partition>, ghost repr: set<object>)
    requires 1 <= maxSegSize <= B32
    ensures |partitions| == if n < 0 then 0 else n
    ensures AllServe(partitions, TopicSpec.Fresh(|partitions|).logs) && Within(partitions, repr)
    ensures fresh(repr) && NewlyBacked(tDir, partitions, maxSegSize)
  {
    hide AllServe, Within, PartitionName, NewlyBacked, OpenIn;
    tDir, partitions, repr := map[], [], {};
    NoneServe();
    NoneBacked(maxSegSize);
    while |partitions| < n
      invariant |partitions| <= if n < 0 then 0 else n
      invariant AllServe(partitions, TopicSpec.Fresh(|partitions|).logs) && Within(partitions, repr)
      invariant fresh(repr) && NewlyBacked(tDir, partitions, maxSegSize)
      decreases n - |partitions|
    {
      NewName(tDir, partitions, maxSegSize);
      var p, after := AddPartition(tDir, partitions, maxSegSize,
                                   TopicSpec.Fresh(|partitions|).logs, repr);
      assert TopicSpec.Fresh(|partitions|).logs + [[]] == TopicSpec.Fresh(|partitions| + 1).logs;
      NewlyBackedSnoc(tDir, partitions, maxSegSize, p, after[PartitionName(|partitions|)]);
      tDir, partitions := after, partitions + [p];
      repr := repr + p.log.Repr;
    }
  }

  // ---------- the manager ----------

  class DataDir {
    var topics: map<bytes, TopicDir>

    constructor ()
      ensures topics == map[]
    {
      topics := map[];
    }
  }

  /** Everything that some topics and their logs consist of. */
  ghost function Reach(topics: map<bytes, Topic>): set<object>
    reads topics.Values
  {
    (set n, o | n in topics && o in topics[n].Repr :: o)
    + (set n, o | n in topics && o in topics[n].Handles() :: o)
  }

  /** Topics under their names, in these directories and states; no two share an object. */
  ghost predicate Loaded(topics: map<bytes, Topic>, dirs: map<bytes, TopicDir>,
                         states: map<bytes, TopicState>, max: int)
    reads topics.Values, Reach(topics)
  {
    && (forall n :: n in topics
          ==> n in dirs && n in states && topics[n].name == n
              && topics[n].Valid(states[n]) && Backed(dirs[n], topics[n].partitions, max))
    && (forall m, n :: m in topics && n in topics && m != n ==> topics[m].Repr !! topics[n].Repr)
  }

  class Manager {
    const root: DataDir
    const maxSegSize: int
    const hash: Hash
    var topics: map<bytes, Topic>

    ghost function Logs(): set<object>
      reads this
    {
      set n, o | n in topics && o in topics[n].Handles() :: o
    }

    ghost function Objects(): set<object>
      reads this, topics.Values
    {
      set n, o | n in topics && o in topics[n].Repr :: o
    }

    /** Everything the manager may change. */
    ghost function Footprint(): set<object>
      reads this, topics.Values
    {
      {this, root} + Objects()
    }

    /** No two topics share an object. */
    ghost predicate Apart()
      reads this, topics.Values
    {
      && (forall n :: n in topics ==> this !in topics[n].Repr && root !in topics[n].Repr)
      && (forall m, n :: m in topics && n in topics && m != n ==> topics[m].Repr !! topics[n].Repr)
    }

    /** Enlarging one topic by new objects keeps the topics apart. */
    twostate lemma StillApart(name: bytes)
      requires old(Apart()) && topics == old(topics) && name in topics
      requires fresh(topics[name].Repr - old(topics[name].Repr))
      requires forall n :: n in topics && n != name ==> topics[n].Repr == old(topics[n].Repr)
      ensures Apart() && fresh(Footprint() - old(Footprint()))
    {
    }

    /** The manager serves exactly these topics. */
    ghost predicate Valid(s: map<bytes, TopicState>)
      reads this, root, topics.Values, Objects(), Logs()
    {
      && 1 <= maxSegSize <= B32
      && root.topics.Keys == topics.Keys == s.Keys
      && Apart()
      && (forall n :: n in topics ==> topics[n].name == n && topics[n].Valid(s[n]))
      && (forall n :: n in topics ==> Backed(root.topics[n], topics[n].partitions, maxSegSize))
    }

    lemma Owned(s: map<bytes, TopicState>)
      requires Valid(s)
      ensures forall n :: n in topics
                ==> topics[n] in topics[n].Repr && topics[n].Handles() <= topics[n].Repr
    {
      hide Backed, Topic.Valid, Topic.Handles;
      forall n | n in topics
        ensures topics[n] in topics[n].Repr && topics[n].Handles() <= topics[n].Repr
      {
        topics[n].Ownership(s[n]);
      }
    }

    lemma Allocated()
      ensures forall o: object :: o in Footprint() ==> allocated(o)
    {
    }

    /** All that Valid reads is in the footprint. */
    lemma Frame(s: map<bytes, TopicState>)
      requires Valid(s)
      ensures topics.Values <= Objects() && Logs() <= Objects() <= Footprint()
      ensures forall n :: n in topics ==> topics[n].Repr <= Objects()
      ensures this in Footprint() && root in Footprint()
    {
      hide Backed, Topic.Valid, Topic.Handles;
      Owned(s);
    }

    lemma Named(s: map<bytes, TopicState>)
      requires Valid(s)
      ensures topics.Keys == s.Keys
    {
    }

    /** What a change confined to one topic cannot touch. */
    lemma Bystanders(name: bytes, s: map<bytes, TopicState>)
      requires Valid(s) && name in topics
      ensures this !in topics[name].Repr && root !in topics[name].Repr
      ensures forall n :: n in topics && n != name
                ==> topics[n] in topics[n].Repr && topics[n].Handles() <= topics[n].Repr
                    && topics[n].Repr !! topics[name].Repr
    {
      hide Backed, Topic.Valid, Topic.Handles;
      Owned(s);
    }

    constructor (root: DataDir, maxSegSize: int, hash: Hash)
      requires root.topics == map[] && 1 <= maxSegSize <= B32
      ensures Valid(map[]) && Footprint() == {this, root}
      ensures this.root == root && this.maxSegSize == maxSegSize && this.hash == hash
    {
      this.root, this.maxSegSize, this.hash := root, maxSegSize, hash;
      this.topics := map[];
    }

    /** One topic in a new state, the others in their old one. */
    lemma ValidAgain(name: bytes, s: map<bytes, TopicState>, x: TopicState)
      requires 1 <= maxSegSize <= B32 && root.topics.Keys == topics.Keys == s.Keys + {name} && Apart()
      requires name in topics && topics[name].name == name && topics[name].Valid(x)
      requires forall n :: n in topics && n != name ==> topics[n].name == n && topics[n].Valid(s[n])
      requires forall n :: n in topics ==> Backed(root.topics[n], topics[n].partitions, maxSegSize)
      ensures Valid(s[name := x])
    {
      hide Topic.Valid, Topic.Handles, Apart, Backed;
    }

    /** A manager over loaded topics. */
    constructor Load(root: DataDir, maxSegSize: int, hash: Hash, topics: map<bytes, Topic>)
      ensures this.root == root && this.maxSegSize == maxSegSize && this.hash == hash
      ensures this.topics == topics
    {
      this.root, this.maxSegSize, this.hash, this.topics := root, maxSegSize, hash, topics;
    }

    lemma LoadedValid(s: map<bytes, TopicState>)
      requires 1 <= maxSegSize <= B32 && root.topics.Keys == topics.Keys == s.Keys
      requires Loaded(topics, root.topics, s, maxSegSize)
      requires forall n :: n in topics ==> this !in topics[n].Repr && root !in topics[n].Repr
      ensures Valid(s)
    {
      hide Topic.Valid, Topic.Handles, Backed;
    }

    lemma ValidLoaded(s: map<bytes, TopicState>)
      requires Valid(s)
      ensures Loaded(topics, root.topics, s, maxSegSize)
      ensures forall n :: n in topics ==> root !in topics[n].Repr
    {
      hide Topic.Valid, Topic.Handles, Backed;
    }

    /** Manager.Produce. */
    method Produce(name: bytes, m: Produced, ghost s: map<bytes, TopicState>)
      returns (r: Outcome<(int, nat)>)
      requires Valid(s) && Fits(m.key, m.value)
      requires name in s ==> forall p :: 0 <= p < |s[name].logs| ==> |s[name].logs[p]| + 1 < B64
      modifies if name in topics then topics[name].Repr else {}
      ensures fresh(Footprint() - old(Footprint()))
      ensures name !in s ==> r == Err(UnknownTopic) && Valid(s)
      ensures name in s
          ==> r == ProduceReply(s[name], hash, m) && Valid(s[name := ProduceNext(s[name], hash, m)])
    {
      hide Backed, Topic.Valid, Topic.Handles, ProduceReply, ProduceNext, Fits, Apart, Footprint,
           Objects, Logs;
      if name !in topics {
        return Err(UnknownTopic);
      }
      Bystanders(name, s);
      r := topics[name].Produce(hash, m, s[name]);
      StillApart(name);
      forall n | n in topics && n != name
        ensures topics[n].Valid(s[n])
      {
        assert old(topics[n].Valid(s[n]));
      }
      ValidAgain(name, s, ProduceNext(s[name], hash, m));
    }

    /** Manager.Consume. */
    method Consume(name: bytes, partition: int, offset: uint64, maxCount: int,
                   ghost s: map<bytes, TopicState>)
      returns (r: Outcome<seq<Message>>)
      requires Valid(s)
      modifies if name in topics then topics[name].Repr else {}
      ensures Valid(s) && fresh(Footprint() - old(Footprint()))
      ensures r == ConsumeReply(s, name, partition, offset, maxCount)
    {
      hide Backed, Topic.Valid, Topic.Handles, Apart, LogSpec.Fetch, Footprint, Objects, Logs;
      if name !in topics {
        return Err(UnknownTopic);
      }
      Bystanders(name, s);
      r := topics[name].Consume(partition, offset, maxCount, s[name]);
      StillApart(name);
      forall n | n in topics && n != name
        ensures topics[n].Valid(s[n])
      {
        assert old(topics[n].Valid(s[n]));
      }
    }

    /** Manager.CreateTopic. */
    method CreateTopic(name: bytes, numPartitions: int64, ghost s: map<bytes, TopicState>)
      returns (r: Outcome<()>)
      requires Valid(s)
      modifies this, root
      ensures fresh(Footprint() - old(Footprint()))
      ensures name in s ==> r == Err(TopicExists) && Valid(s)
      ensures name !in s ==> r == Outcome.Ok(()) && Valid(s[name := NewTopic(numPartitions)])
    {
      hide Backed, Topic.Valid, Topic.Handles;
      if name in topics {
        return Err(TopicExists);
      }
      Owned(s);
      var tDir, t := MakeTopic(name, numPartitions, maxSegSize);
      Register(name, tDir, t, NewTopic(numPartitions), s);
      return Outcome.Ok(());
    }

    /** Adds a topic whose objects are its own. */
    method Register(name: bytes, tDir: TopicDir, t: Topic, ghost x: TopicState,
                    ghost s: map<bytes, TopicState>)
      requires Valid(s) && name !in s && t.Valid(x) && t.name == name
      requires t in t.Repr && t.Handles() <= t.Repr && t.Repr !! Footprint()
      requires Backed(tDir, t.partitions, maxSegSize)
      modifies this, root
      ensures topics == old(topics)[name := t] && Valid(s[name := x])
      ensures t.Repr == old(t.Repr) && Footprint() <= old(Footprint()) + t.Repr
    {
      hide Backed, Topic.Valid, Topic.Handles, Valid, Apart, Footprint, Objects, Logs;
      Owned(s);
      Outside(s);
      Parts(s);
      Enter(name, tDir, t);
      OneMore(name);
      forall n | n in topics && n != name
        ensures topics[n].name == n && topics[n].Valid(s[n])
      {
        assert old(topics[n].Valid(s[n]));
      }
      forall n | n in topics
        ensures Backed(root.topics[n], topics[n].partitions, maxSegSize)
      {
        assert n != name ==> old(Backed(root.topics[n], topics[n].partitions, maxSegSize));
      }
      ValidAgain(name, s, x);
    }

    method Enter(name: bytes, tDir: TopicDir, t: Topic)
      modifies `topics, root
      ensures root.topics == old(root.topics)[name := tDir] && topics == old(topics)[name := t]
    {
      root.topics := root.topics[name := tDir];
      topics := topics[name := t];
    }

    lemma Parts(s: map<bytes, TopicState>)
      requires Valid(s)
      ensures 1 <= maxSegSize <= B32 && root.topics.Keys == topics.Keys == s.Keys && Apart()
      ensures forall n :: n in topics ==> topics[n].name == n && topics[n].Valid(s[n])
      ensures forall n :: n in topics ==> Backed(root.topics[n], topics[n].partitions, maxSegSize)
    {
      hide Backed, Topic.Valid, Topic.Handles, Apart;
    }

    lemma Outside(s: map<bytes, TopicState>)
      requires Valid(s)
      ensures forall n :: n in topics ==> this !in topics[n].Repr && root !in topics[n].Repr
    {
      hide Backed, Topic.Valid;
    }

    /** A topic of other objects is apart from the rest. */
    twostate lemma OneMore(name: bytes)
      requires old(Apart()) && name !in old(topics) && name in topics
      requires topics == old(topics)[name := topics[name]]
      requires topics[name] in topics[name].Repr && topics[name].Repr !! old(Footprint())
      requires forall n :: n in old(topics) ==> topics[n].Repr == old(topics[n].Repr)
      ensures Apart() && Footprint() <= old(Footprint()) + topics[name].Repr
    {
      assert forall n :: n in old(topics) ==> topics[n].Repr <= old(Objects());
    }

    /** What handleListTopics reads of each topic, in the order of one map iteration. */
    method ListTopics(order: seq<bytes>, ghost s: map<bytes, TopicState>)
      returns (infos: seq<TopicInfo>)
      requires Valid(s) && forall i :: 0 <= i < |order| ==> order[i] in s
      ensures infos == Infos(order, s)
    {
      hide Backed, Topic.Valid, Topic.Handles, Apart;
      infos := [];
      var i := 0;
      while i < |order|
        invariant 0 <= i <= |order| && Valid(s)
        invariant infos == Infos(order[..i], s)
      {
        Owned(s);
        var t := topics[order[i]];
        t.SameCount(s[order[i]]);
        var total := t.TotalMessages(s[order[i]]);
        infos := infos + [TopicInfo(t.name, |t.partitions|, total)];
        forall n | n in topics
          ensures topics[n].Valid(s[n])
        {
        }
        assert order[..i + 1][..i] == order[..i];
        i := i + 1;
      }
      assert order[..i] == order;
    }
  }

  function ConsumeReply(s: map<bytes, TopicState>, name: bytes, partition: int, offset: uint64,
                        maxCount: int): Outcome<seq<Message>>
  {
    if name !in s then Err(UnknownTopic)
    else if 0 <= partition < |s[name].logs|
    then Ok(LogSpec.Fetch(s[name].logs[partition], 0, offset, maxCount))
    else Err(InvalidPartition)
  }

  /** The state of a new topic; a count below zero makes no partitions. */
  function NewTopic(numPartitions: int64): (t: TopicState)
    ensures |t.logs| == (if numPartitions < 0 then 0 else numPartitions) && t.counter == 0
    ensures |t.ids| == |t.logs| && forall p :: 0 <= p < |t.ids| ==> t.logs[p] == [] && t.ids[p] == p
  {
    TopicSpec.Fresh(if numPartitions < 0 then 0 else numPartitions)
  }

  function Infos(order: seq<bytes>, s: map<bytes, TopicState>): (infos: seq<TopicInfo>)
    requires forall i :: 0 <= i < |order| ==> order[i] in s
    ensures |infos| == |order|
  {
    if order == [] then []
    else
      var n := order[|order| - 1];
      Infos(order[..|order| - 1], s) + [TopicInfo(n, |s[n].logs|, Total(s[n].logs) % B64)]
  }

  lemma InsideTopic(partitions: seq<Partition>, repr: set<object>, t: Topic)
    requires Within(partitions, repr) && t !in repr
    requires t.partitions == partitions && t.Repr == {t} + repr
    ensures t.Owns()
  {
  }

  /** The directory and the object of a new topic. */
  method MakeTopic(name: bytes, numPartitions: int64, maxSegSize: int)
    returns (tDir: TopicDir, t: Topic)
    requires 1 <= maxSegSize <= B32
    ensures fresh(t) && fresh(t.Repr) && t.Valid(NewTopic(numPartitions))
    ensures t.name == name && t in t.Repr && t.Handles() <= t.Repr
    ensures NewlyBacked(tDir, t.partitions, maxSegSize)
  {
    hide AllServe, PartitionName, NewlyBacked;
    var parts, partitions, repr := CreatePartitions(numPartitions, maxSegSize);
    tDir := parts;
    t := new Topic(name, partitions, repr);
    InsideTopic(partitions, repr, t);
    IdsCounted(tDir, partitions, maxSegSize);
    t.Ownership(NewTopic(numPartitions));
  }
}
