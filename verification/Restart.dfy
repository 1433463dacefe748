/**
  Stopping and starting again (broker/topic/topic.go, NewManager): which messages are served
  at which partition position when the directories of live topics are opened once more.
 */
module Restart {
  import opened Bytes
  import opened Decimal
  import opened Sorting
  import opened Chains
  import opened CommitLogs
  import opened LogSpec
  import opened LogRuns
  import opened TopicSpec
  import opened Topics
  import opened Reload
  import opened Places
  import opened Paths

  // ---------- the directory of a live topic ----------

  ghost function ByName(names: set<string>, ids: seq<int>, chains: seq<Chain>): map<string, Chain> {
    map name | name in names && IndexOf(ids, IdAt(name)) < |chains| :: chains[IndexOf(ids, IdAt(name))]
  }

  /** A chain of segments from offset 0 that holds these messages. */
  ghost predicate Stands(chain: Chain, log: Messages) {
    chain != [] && chain[0].base == 0 && Represents(Contents(chain), log)
  }

  /** A live log, whose directory is well formed as it is. */
  ghost predicate Live(cl: CommitLog, chain: Chain, log: Messages)
    reads cl, cl.dir
  {
    && cl.dir in cl.Repr && Stands(chain, log)
    && OnDisk(cl.dir.files, chain) && ChainOk(chain, cl.maxSegmentBytes)
  }

  lemma LogStands(cl: CommitLog, log: Messages)
    requires Serves(cl, log)
    ensures Live(cl, cl.Chain(), log)
  {
    hide CommitLog.Valid, Represents, Contents, OnDisk, ChainOk;
    cl.Basics();
    LeavesOnDisk(cl);
  }

  lemma OpenedServes(cl: CommitLog, chain: Chain, log: Messages)
    requires OpenedAs(cl, chain) && Stands(chain, log)
    ensures Serves(cl, log)
  {
    hide CommitLog.Valid, Represents, Contents;
  }

  /** The chains of live partitions. */
  lemma LiveChains(partitions: seq<Partition>, logs: seq<Messages>) returns (chains: seq<Chain>)
    requires AllServe(partitions, logs)
    ensures |chains| == |partitions|
    ensures forall i :: 0 <= i < |partitions| ==> Live(partitions[i].log, chains[i], logs[i])
  {
    hide Serves, Live;
    chains := [];
    while |chains| < |partitions|
      invariant |chains| <= |partitions|
      invariant forall i :: 0 <= i < |chains| ==> Live(partitions[i].log, chains[i], logs[i])
    {
      var i := |chains|;
      LogStands(partitions[i].log, logs[i]);
      chains := chains + [partitions[i].log.Chain()];
    }
  }

  /** At every moment the directory of a live topic holds closed logs for its messages. */
  lemma LiveIsStored(t: Topic, tDir: TopicDir, max: int, s: TopicState) returns (chains: seq<Chain>)
    requires t.Valid(s) && Backed(tDir, t.partitions, max)
    ensures |chains| == |s.logs|
    ensures WellStored(tDir, ByName(tDir.Keys, Ids(t.partitions), chains), max)
    ensures forall i :: 0 <= i < |s.logs| ==> Stands(chains[i], s.logs[i])
  {
    hide Serves, Stands, OnDisk, ChainOk, PartitionName, PartitionId, AllServe, ByName, WellStored, Backed;
    t.SameCount(s);
    chains := LiveChains(t.partitions, s.logs);
    LiveDirectory(tDir, t.partitions, chains, s.logs, max);
  }

  /** Where a directory entry of a topic belongs. */
  lemma EntryOf(tDir: TopicDir, partitions: seq<Partition>, max: int, name: string) returns (i: nat)
    requires Backed(tDir, partitions, max) && name in tDir
    ensures i < |partitions| && i == IndexOf(Ids(partitions), IdAt(name))
    ensures PartitionId(name) == Some(partitions[i].id) && name == PartitionName(partitions[i].id)
    ensures OpenIn(partitions[i], tDir[name], max)
  {
    hide PartitionName, PartitionId, OpenIn, Numbered, NameLess;
    i :| 0 <= i < |partitions| && name == PartitionName(partitions[i].id);
    var ids := Ids(partitions);
    NamesDiffer(ids);
    assert PartitionId(NamesOf(ids)[i]) == Some(ids[i]);
    assert ids[i] in ids;
  }

  lemma LiveDirectory(tDir: TopicDir, partitions: seq<Partition>, chains: seq<Chain>,
                      logs: seq<Messages>, max: int)
    requires Backed(tDir, partitions, max) && AllServe(partitions, logs)
    requires |chains| == |partitions|
    requires forall i :: 0 <= i < |partitions| ==> Live(partitions[i].log, chains[i], logs[i])
    ensures WellStored(tDir, ByName(tDir.Keys, Ids(partitions), chains), max)
    ensures forall i :: 0 <= i < |partitions| ==> Stands(chains[i], logs[i])
  {
    hide Serves, Stands, OnDisk, ChainOk, PartitionName, PartitionId, IdAt, Backed;
    forall name | name in tDir
      ensures exists i :: 0 <= i < |partitions| && i == IndexOf(Ids(partitions), IdAt(name))
                && PartitionId(name) == Some(partitions[i].id) && name == PartitionName(partitions[i].id)
                && OpenIn(partitions[i], tDir[name], max)
    {
      var i := EntryOf(tDir, partitions, max, name);
    }
  }

  lemma {:induction false} AllKept(order: seq<string>)
    requires forall name :: name in order ==> PartitionId(name).Some?
    ensures Kept(order) == order
  {
    hide PartitionId;
    if order != [] {
      var last := |order| - 1;
      assert order[last] in order;
      AllKept(order[..last]);
      assert order[..last] + [order[last]] == order;
    }
  }

  lemma OpenServes(partitions: seq<Partition>, chains: seq<Chain>, names: set<string>, s: TopicState)
    requires AllOpen(partitions, Order(s.ids), ByName(names, s.ids, chains)) && |chains| == |s.logs|
    requires forall i :: 0 <= i < |chains| ==> Stands(chains[i], s.logs[i])
    ensures AllServe(partitions, Reloaded(s).logs)
  {
    hide OpenedAs, Stands, PartitionId, Serves, Order, IndexOf, IdAt;
    forall i | 0 <= i < |partitions|
      ensures Serves(partitions[i].log, Reloaded(s).logs[i])
    {
      OpenedServes(partitions[i].log, ByName(names, s.ids, chains)[Order(s.ids)[i]],
                   LogOf(s, Reloaded(s).ids[i]));
    }
  }

  /** The directory of the reloaded topic is the one of the old topic. */
  lemma BackedAgain(tDir: TopicDir, before: seq<Partition>, after: seq<Partition>, max: int)
    requires Backed(tDir, before, max) && OpenedIn(after, Order(Ids(before)), tDir, max)
    requires forall k :: 0 <= k < |after| ==> PartitionId(Order(Ids(before))[k]) == Some(after[k].id)
    ensures Backed(tDir, after, max) && Ids(after) == SortedIds(Ids(before))
  {
    hide PartitionName, PartitionId, OpenIn, NameLess, Order;
    var ids, order := Ids(before), Order(Ids(before));
    OrderFacts(ids);
    NamesDiffer(ids);
    forall k | 0 <= k < |after|
      ensures order[k] == PartitionName(after[k].id) && IsId(after[k].id)
    {
      assert order[k] in NamesOf(ids);
      var i :| 0 <= i < |ids| && order[k] == NamesOf(ids)[i];
      assert PartitionId(order[k]) == Some(ids[i]);
    }
    assert NamesOf(Ids(after)) == order;
    forall name
      ensures name in tDir <==> exists k :: 0 <= k < |after| && name == PartitionName(after[k].id)
    {
      assert name in tDir <==> name in NamesOf(ids);
      assert name in order <==> exists k :: 0 <= k < |after| && name == order[k];
    }
  }

  /**
    The process ends with a topic live and NewManager opens its directory again: the new
    topic serves every partition's messages, at the positions of the name order.
   */
  method RestartTopic(name: bytes, tDir: TopicDir, maxSegSize: int, ghost t: Topic,
                      ghost s: TopicState)
    returns (after: Topic)
    requires 1 <= maxSegSize <= B32 && t.Valid(s) && Backed(tDir, t.partitions, maxSegSize)
    modifies tDir.Values
    ensures after.name == name && after.Valid(Reloaded(s))
    ensures Backed(tDir, after.partitions, maxSegSize)
    ensures fresh(after) && fresh(after.Repr - tDir.Values)
  {
    hide AllServe, AllOpen, Stands, PartitionName, PartitionId, WellStored, ByName, NameLess, Backed,
         OpenedIn, Numbered, Reloaded;
    t.SameCount(s);
    ghost var ids := Ids(t.partitions);
    ghost var names := tDir.Keys;
    ghost var chains := LiveIsStored(t, tDir, maxSegSize, s);
    ghost var listing;
    after, listing := ReloadTopic(name, tDir, maxSegSize, ByName(names, ids, chains));
    ListingOf(tDir, t.partitions, maxSegSize, listing);
    AllKept(listing);
    OpenServes(after.partitions, chains, names, s);
    IdsOpen(after.partitions, listing, ByName(names, ids, chains));
    BackedAgain(tDir, t.partitions, after.partitions, maxSegSize);
  }

  lemma IdsOpen(partitions: seq<Partition>, kept: seq<string>, chains: map<string, Chain>)
    requires AllOpen(partitions, kept, chains)
    ensures |partitions| == |kept|
    ensures forall k :: 0 <= k < |partitions| ==> PartitionId(kept[k]) == Some(partitions[k].id)
  {
    hide OpenedAs, PartitionId;
  }

  lemma ListingOf(tDir: TopicDir, partitions: seq<Partition>, max: int, listing: seq<string>)
    requires Backed(tDir, partitions, max) && Increasing(listing, NameLess)
    requires forall name :: name in listing <==> name in tDir
    ensures Numbered(Ids(partitions)) && listing == Order(Ids(partitions))
    ensures forall name :: name in listing ==> PartitionId(name).Some?
  {
    hide PartitionName, PartitionId, OpenIn, NameLess, Numbered;
    var names := NamesOf(Ids(partitions));
    forall name
      ensures name in tDir <==> name in names
    {
      assert forall i :: 0 <= i < |partitions| ==> names[i] == PartitionName(partitions[i].id);
    }
    ListingIsOrder(Ids(partitions), listing);
    forall name | name in listing
      ensures PartitionId(name).Some?
    {
      var i := EntryOf(tDir, partitions, max, name);
    }
  }

  // ---------- all topics ----------

  /** The names under which a directory can have an entry. */
  predicate PlainName(name: bytes) {
    && name != [] && name != [0x2E] && name != [0x2E, 0x2E]
    && forall i :: 0 <= i < |name| ==> name[i] != 0x2F && name[i] != 0
  }

  /** They are the names without a NUL that a path takes as they are. */
  lemma PlainExact(home: Path, name: bytes)
    ensures PlainName(name) <==> 0 !in name && Walk(home, Split(AsText(name))) == home + [AsText(name)]
  {
    hide Walk, Split;
    var text := AsText(name);
    EntryExact(home, text);
    assert forall i :: 0 <= i < |name| ==> (text[i] == '/' <==> name[i] == 0x2F);
    assert text == "." <==> name == [0x2E];
    assert text == ".." <==> name == [0x2E, 0x2E];
  }

  ghost predicate AllPlain(s: map<bytes, TopicState>) {
    forall n :: n in s ==> PlainName(n)
  }

  /** NewManager skips directories whose names start with a dot. */
  predicate Visible(name: bytes): (v: bool)
    ensures v <==> name == [] || name[0] != 0x2E
  {
    !([0x2E] <= name)
  }

  function VisibleOf(names: set<bytes>): set<bytes> {
    set n | n in names && Visible(n)
  }

  lemma VisibleMore(all: map<bytes, Topic>, live: map<bytes, Topic>, n: bytes)
    requires n in live && live.Keys <= all.Keys
    ensures VisibleOf(all.Keys - (live - {n}).Keys)
         == VisibleOf(all.Keys - live.Keys) + if Visible(n) then {n} else {}
  {
    hide Visible;
  }

  /** The states of these topics after a restart. */
  function AllReloaded(s: map<bytes, TopicState>, names: set<bytes>): (r: map<bytes, TopicState>)
    requires names <= s.Keys
    ensures r.Keys == names
  {
    map n | n in names :: Reloaded(s[n])
  }

  lemma DirsOwned(t: Topic, tDir: TopicDir, max: int, s: TopicState)
    requires t.Valid(s) && Backed(tDir, t.partitions, max)
    ensures forall d :: d in tDir.Values ==> d in t.Repr
    ensures t in t.Repr && t.Handles() <= t.Repr
  {
    hide PartitionName, CommitLog.Valid, Implements, Numbered;
    t.Ownership(s);
    forall name | name in tDir
      ensures tDir[name] in t.Repr
    {
      var i :| 0 <= i < |t.partitions| && name == PartitionName(t.partitions[i].id);
      t.partitions[i].log.Basics();
    }
  }

  lemma LoadedOwned(topics: map<bytes, Topic>, dirs: map<bytes, TopicDir>,
                    states: map<bytes, TopicState>, max: int)
    requires Loaded(topics, dirs, states, max)
    ensures forall n :: n in topics
              ==> topics[n] in topics[n].Repr && topics[n].Handles() <= topics[n].Repr
    ensures forall n, d :: n in topics && d in dirs[n].Values ==> d in topics[n].Repr
  {
    hide Topic.Valid, Topic.Handles, Backed;
    forall n | n in topics
      ensures topics[n] in topics[n].Repr && topics[n].Handles() <= topics[n].Repr
      ensures forall d :: d in dirs[n].Values ==> d in topics[n].Repr
    {
      DirsOwned(topics[n], dirs[n], max, states[n]);
    }
  }

  lemma LoadedMore(topics: map<bytes, Topic>, dirs: map<bytes, TopicDir>,
                   states: map<bytes, TopicState>, max: int, name: bytes, t: Topic, x: TopicState)
    requires Loaded(topics, dirs, states, max) && name in dirs && t.name == name
    requires t.Valid(x) && Backed(dirs[name], t.partitions, max)
    requires forall n :: n in topics && n != name ==> topics[n].Repr !! t.Repr
    ensures Loaded(topics[name := t], dirs, states[name := x], max)
  {
    hide Topic.Valid, Topic.Handles, Backed;
  }

  lemma LoadedLess(topics: map<bytes, Topic>, dirs: map<bytes, TopicDir>,
                   states: map<bytes, TopicState>, max: int, name: bytes)
    requires Loaded(topics, dirs, states, max)
    ensures Loaded(topics - {name}, dirs, states, max)
  {
    hide Topic.Valid, Topic.Handles, Backed;
  }

  /** One round of the outer loop of NewManager; the topics still to be loaded are not touched. */
  method LoadTopic(name: bytes, maxSegSize: int, ghost live: map<bytes, Topic>,
                   ghost s: map<bytes, TopicState>, ghost topics: map<bytes, Topic>,
                   ghost states: map<bytes, TopicState>, dirs: map<bytes, TopicDir>)
    returns (t: Topic)
    requires 1 <= maxSegSize <= B32 && name in live
    requires Loaded(live, dirs, s, maxSegSize) && Loaded(topics, dirs, states, maxSegSize)
    requires forall n, d :: n in topics && d in dirs[name].Values ==> d !in topics[n].Repr
    modifies dirs[name].Values
    ensures Loaded(live - {name}, dirs, s, maxSegSize)
    ensures Loaded(topics[name := t], dirs,
                   states[name := Reloaded(s[name])], maxSegSize)
    ensures fresh(t.Repr - dirs[name].Values) && t.name == name
  {
    hide Topic.Valid, Topic.Handles, Backed, Reloaded;
    LoadedOwned(live, dirs, s, maxSegSize);
    LoadedOwned(topics, dirs, states, maxSegSize);
    t := RestartTopic(name, dirs[name], maxSegSize, live[name], s[name]);
    ghost var rest := live - {name};
    forall n | n in rest
      ensures rest[n].Valid(s[n]) && rest[n].Repr == old(rest[n].Repr)
    {
      assert old(live[n].Valid(s[n]));
    }
    forall n | n in topics
      ensures topics[n].Valid(states[n]) && topics[n].Repr == old(topics[n].Repr)
    {
      assert old(topics[n].Valid(states[n]));
    }
    LoadedMore(topics, dirs, states, maxSegSize, name, t, Reloaded(s[name]));
  }

  /** Directories of different topics are different. */
  lemma DirsApart(topics: map<bytes, Topic>, dirs: map<bytes, TopicDir>,
                  states: map<bytes, TopicState>, max: int)
    requires Loaded(topics, dirs, states, max) && dirs.Keys == topics.Keys
    ensures forall m, n, d :: m in dirs && n in dirs && m != n && d in dirs[m].Values ==> d !in dirs[n].Values
  {
    hide Topic.Valid, Topic.Handles, Backed;
    LoadedOwned(topics, dirs, states, max);
  }

  lemma NoneLoaded(dirs: map<bytes, TopicDir>, max: int)
    ensures Loaded(map[], dirs, map[], max)
  {
  }

  lemma AllReloadedMore(s: map<bytes, TopicState>, names: set<bytes>, n: bytes)
    requires names <= s.Keys && n in s
    ensures AllReloaded(s, names)[n := Reloaded(s[n])]
         == AllReloaded(s, names + {n})
  {
  }

  /** What is settled about directories and new objects while topics are loaded. */
  ghost predicate Separated(topics: map<bytes, Topic>, dirs: map<bytes, TopicDir>,
                            made: set<object>, olds: set<object>)
    reads topics.Values
  {
    && made !! olds
    && (forall n, d :: n in dirs && d in dirs[n].Values ==> d in olds)
    && (forall m, n, d :: m in dirs && n in dirs && m != n && d in dirs[m].Values ==> d !in dirs[n].Values)
    && (forall n, o :: n in topics && n in dirs && o in topics[n].Repr && o !in dirs[n].Values ==> o in made)
  }

  lemma SeparatedFrom(topics: map<bytes, Topic>, dirs: map<bytes, TopicDir>, made: set<object>,
                      olds: set<object>, name: bytes)
    requires Separated(topics, dirs, made, olds) && topics.Keys <= dirs.Keys
    requires name in dirs && name !in topics
    ensures forall n, d :: n in topics && d in dirs[name].Values ==> d !in topics[n].Repr
  {
    forall n, d | n in topics && d in dirs[name].Values
      ensures d !in topics[n].Repr
    {
      assert d in olds && d !in made;
      assert d !in dirs[n].Values;
    }
  }

  lemma SeparatedMore(topics: map<bytes, Topic>, dirs: map<bytes, TopicDir>, made: set<object>,
                      olds: set<object>, name: bytes, t: Topic)
    requires Separated(topics, dirs, made, olds) && name in dirs
    requires t.Repr - dirs[name].Values !! olds
    ensures Separated(topics[name := t], dirs, made + (t.Repr - dirs[name].Values), olds)
  {
    var after, added := topics[name := t], t.Repr - dirs[name].Values;
    forall n, o | n in after && n in dirs && o in after[n].Repr && o !in dirs[n].Values
      ensures o in made + added
    {
      if n != name {
        assert n in topics && o in topics[n].Repr;
      }
    }
  }

  /** What holds between two rounds of the outer loop. */
  ghost predicate Underway(all: map<bytes, Topic>, live: map<bytes, Topic>, topics: map<bytes, Topic>,
                           dirs: map<bytes, TopicDir>, s: map<bytes, TopicState>, max: int)
    reads topics.Values, Reach(topics), live.Values, Reach(live)
  {
    && (forall n :: n in live ==> n in all && live[n] == all[n])
    && topics.Keys <= all.Keys && all.Keys == s.Keys == dirs.Keys && topics.Keys !! live.Keys
    && topics.Keys == VisibleOf(all.Keys - live.Keys)
    && Loaded(live, dirs, s, max) && Loaded(topics, dirs, AllReloaded(s, topics.Keys), max)
  }

  lemma UnderwayParts(all: map<bytes, Topic>, live: map<bytes, Topic>, topics: map<bytes, Topic>,
                      dirs: map<bytes, TopicDir>, s: map<bytes, TopicState>, max: int)
    requires Underway(all, live, topics, dirs, s, max)
    ensures forall n :: n in live ==> n in all && live[n] == all[n]
    ensures topics.Keys <= all.Keys && all.Keys == s.Keys == dirs.Keys && topics.Keys !! live.Keys
    ensures topics.Keys == VisibleOf(all.Keys - live.Keys)
    ensures Loaded(live, dirs, s, max) && Loaded(topics, dirs, AllReloaded(s, topics.Keys), max)
  {
    hide Loaded, AllReloaded;
  }

  lemma UnderwayOf(all: map<bytes, Topic>, live: map<bytes, Topic>, topics: map<bytes, Topic>,
                   dirs: map<bytes, TopicDir>, s: map<bytes, TopicState>, max: int)
    requires forall n :: n in live ==> n in all && live[n] == all[n]
    requires topics.Keys <= all.Keys && all.Keys == s.Keys == dirs.Keys && topics.Keys !! live.Keys
    requires topics.Keys == VisibleOf(all.Keys - live.Keys)
    requires Loaded(live, dirs, s, max) && Loaded(topics, dirs, AllReloaded(s, topics.Keys), max)
    ensures Underway(all, live, topics, dirs, s, max)
  {
    hide Loaded, AllReloaded;
  }

  method LoadApart(name: bytes, maxSegSize: int, ghost live: map<bytes, Topic>,
                   ghost s: map<bytes, TopicState>, ghost topics: map<bytes, Topic>,
                   ghost states: map<bytes, TopicState>, dirs: map<bytes, TopicDir>,
                   ghost made: set<object>, ghost olds: set<object>)
    returns (t: Topic)
    requires 1 <= maxSegSize <= B32 && name in live && name !in topics && name in dirs
    requires Loaded(live, dirs, s, maxSegSize) && Loaded(topics, dirs, states, maxSegSize)
    requires Separated(topics, dirs, made, olds) && topics.Keys <= dirs.Keys
    requires forall o :: o in olds ==> allocated(o)
    modifies dirs[name].Values
    ensures Loaded(live - {name}, dirs, s, maxSegSize)
    ensures Loaded(topics[name := t], dirs,
                   states[name := Reloaded(s[name])], maxSegSize)
    ensures Separated(topics[name := t], dirs, made + (t.Repr - dirs[name].Values), olds)
    ensures fresh(t.Repr - dirs[name].Values)
  {
    hide Loaded, Separated, Reloaded;
    SeparatedFrom(topics, dirs, made, olds, name);
    t := LoadTopic(name, maxSegSize, live, s, topics, states, dirs);
    SeparatedMore(topics, dirs, made, olds, name, t);
  }

  method LoadRound(name: bytes, maxSegSize: int, dirs: map<bytes, TopicDir>, topics: map<bytes, Topic>,
                   ghost all: map<bytes, Topic>, ghost live: map<bytes, Topic>,
                   ghost s: map<bytes, TopicState>, ghost made: set<object>, ghost olds: set<object>)
    returns (after: map<bytes, Topic>, ghost added: set<object>)
    requires 1 <= maxSegSize <= B32 && name in live
    requires Underway(all, live, topics, dirs, s, maxSegSize) && Separated(topics, dirs, made, olds)
    requires forall o :: o in olds ==> allocated(o)
    modifies dirs[name].Values
    ensures Underway(all, live - {name}, after, dirs, s, maxSegSize)
    ensures Separated(after, dirs, made + added, olds) && fresh(added)
  {
    hide Loaded, AllReloaded, Separated, Reloaded, Underway, Visible, VisibleOf;
    UnderwayParts(all, live, topics, dirs, s, maxSegSize);
    VisibleMore(all, live, name);
    if Visible(name) {
      ghost var states := AllReloaded(s, topics.Keys);
      var t := LoadApart(name, maxSegSize, live, s, topics, states, dirs, made, olds);
      added := t.Repr - dirs[name].Values;
      after := topics[name := t];
      AllReloadedMore(s, topics.Keys, name);
      assert after.Keys == topics.Keys + {name};
      UnderwayOf(all, live - {name}, after, dirs, s, maxSegSize);
    } else {
      LoadedLess(live, dirs, s, maxSegSize, name);
      after, added := topics, {};
      assert topics.Keys + {} == topics.Keys;
      UnderwayOf(all, live - {name}, after, dirs, s, maxSegSize);
      assert made + {} == made;
    }
  }

  lemma StartUnderway(before: Manager, s: map<bytes, TopicState>)
    requires before.Valid(s)
    ensures Underway(before.topics, before.topics, map[], before.root.topics, s, before.maxSegSize)
    ensures Separated(map[], before.root.topics, {}, before.Objects())
    ensures before.root.topics.Keys == s.Keys && 1 <= before.maxSegSize <= B32
  {
    hide Topic.Valid, Topic.Handles, Backed, Loaded, AllReloaded, Manager.Objects;
    var all, dirs := before.topics, before.root.topics;
    before.ValidLoaded(s);
    before.Frame(s);
    LoadedOwned(all, dirs, s, before.maxSegSize);
    DirsApart(all, dirs, s, before.maxSegSize);
    NoneLoaded(dirs, before.maxSegSize);
    assert AllReloaded(s, {}) == map[];
  }

  /** The directories of a manager's topics are among its objects. */
  lemma DirsWithin(topics: map<bytes, Topic>, dirs: map<bytes, TopicDir>, made: set<object>,
                   olds: set<object>, name: bytes)
    requires Separated(topics, dirs, made, olds) && name in dirs
    ensures forall d :: d in dirs[name].Values ==> d in olds
  {
  }

  /** The outer loop of NewManager. */
  method LoadTopics(maxSegSize: int, dirs: map<bytes, TopicDir>, ghost all: map<bytes, Topic>,
                    ghost s: map<bytes, TopicState>, ghost olds: set<object>)
    returns (topics: map<bytes, Topic>, ghost made: set<object>)
    requires 1 <= maxSegSize <= B32 && all.Keys == dirs.Keys && AllPlain(s)
    requires Underway(all, all, map[], dirs, s, maxSegSize) && Separated(map[], dirs, {}, olds)
    requires forall o :: o in olds ==> allocated(o)
    modifies olds
    ensures Underway(all, map[], topics, dirs, s, maxSegSize) && Separated(topics, dirs, made, olds)
    ensures forall n :: n in topics <==> n in dirs && n[0] != 0x2E
    ensures forall o :: o in made ==> fresh(o)
  {
    hide Underway, Separated;
    topics, made := map[], {};
    ghost var live := all;
    var rest := dirs.Keys;
    while rest != {}
      invariant live.Keys == rest && rest <= dirs.Keys
      invariant Underway(all, live, topics, dirs, s, maxSegSize)
      invariant Separated(topics, dirs, made, olds) && forall o :: o in made ==> fresh(o)
      decreases |rest|
    {
      var name :| name in rest;
      DirsWithin(topics, dirs, made, olds, name);
      ghost var added;
      topics, added := LoadRound(name, maxSegSize, dirs, topics, all, live, s, made, olds);
      forall o | o in made + added
        ensures fresh(o)
      {
      }
      made, live, rest := made + added, live - {name}, rest - {name};
    }
    assert live == map[];
    LoadedNames(all, topics, dirs, s, maxSegSize);
  }

  lemma LoadedNames(all: map<bytes, Topic>, topics: map<bytes, Topic>, dirs: map<bytes, TopicDir>,
                    s: map<bytes, TopicState>, max: int)
    requires Underway(all, map[], topics, dirs, s, max) && AllPlain(s)
    ensures forall n :: n in topics <==> n in dirs && n[0] != 0x2E
  {
    hide Loaded, AllReloaded;
  }

  /**
    NewManager on the data directory of a manager that has stopped: every visible topic is
    served again, each as RestartTopic leaves it.
   */
  method NewManager(root: DataDir, maxSegSize: int, hash: Hash, ghost before: Manager,
                    ghost s: map<bytes, TopicState>)
    returns (m: Manager)
    requires before.Valid(s) && before.root == root && before.maxSegSize == maxSegSize
    requires AllPlain(s)
    modifies before.Objects()
    ensures fresh(m) && m.root == root && m.maxSegSize == maxSegSize && m.hash == hash
    ensures forall n :: n in m.topics <==> n in s && n[0] != 0x2E
    ensures m.topics.Keys == VisibleOf(s.Keys) && s.Keys == old(before.topics).Keys
    ensures Loaded(m.topics, root.topics, AllReloaded(s, m.topics.Keys), maxSegSize)
    ensures VisibleOf(s.Keys) == s.Keys ==> m.Valid(AllReloaded(s, s.Keys))
    ensures forall o :: o in m.Footprint() && o !in old(before.Footprint()) ==> fresh(o)
  {
    hide Underway, Separated, Loaded, AllReloaded, VisibleOf, Manager.Valid, Topic.Valid;
    ghost var all, olds := before.topics, before.Objects();
    StartUnderway(before, s);
    before.Frame(s);
    before.Parts(s);
    before.Outside(s);
    var topics, made := LoadTopics(maxSegSize, root.topics, all, s, before.Objects());
    UnderwayParts(all, map[], topics, root.topics, s, maxSegSize);
    ghost var none: map<bytes, Topic> := map[];
    assert all.Keys - none.Keys == s.Keys;
    LoadedApart(topics, root.topics, made, olds);
    m := OverTopics(root, maxSegSize, hash, topics, AllReloaded(s, topics.Keys), made + olds);
  }

  /** A manager over loaded topics made of certain objects. */
  method OverTopics(root: DataDir, maxSegSize: int, hash: Hash, topics: map<bytes, Topic>,
                    ghost states: map<bytes, TopicState>, ghost objects: set<object>)
    returns (m: Manager)
    requires 1 <= maxSegSize <= B32 && topics.Keys == states.Keys && root !in objects
    requires Loaded(topics, root.topics, states, maxSegSize)
    requires forall n, o :: n in topics && o in topics[n].Repr ==> o in objects
    ensures fresh(m) && m.root == root && m.maxSegSize == maxSegSize && m.hash == hash
    ensures m.topics == topics && Loaded(m.topics, root.topics, states, maxSegSize)
    ensures root.topics.Keys == topics.Keys ==> m.Valid(states)
    ensures forall o :: o in m.Footprint() ==> o == m || o == root || o in objects
  {
    hide Topic.Valid, Topic.Handles, Backed, Manager.Valid;
    LoadedOwned(topics, root.topics, states, maxSegSize);
    m := new Manager.Load(root, maxSegSize, hash, topics);
    forall n | n in topics
      ensures topics[n].Valid(states[n])
    {
      assert old(topics[n].Valid(states[n]));
    }
    if root.topics.Keys == topics.Keys {
      m.LoadedValid(states);
    }
  }

  lemma LoadedApart(topics: map<bytes, Topic>, dirs: map<bytes, TopicDir>, made: set<object>,
                    olds: set<object>)
    requires Separated(topics, dirs, made, olds) && topics.Keys <= dirs.Keys
    ensures forall n, o :: n in topics && o in topics[n].Repr ==> o in made || o in olds
  {
  }
}
