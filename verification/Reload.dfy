/**
  Reloading a topic from its directory (broker/topic/topic.go, NewManager): partitions come
  back in the order of their directory names, which is not always the order of their ids.
 */
module Reload {
  import opened Bytes
  import opened Decimal
  import opened Sorting
  import opened Chains
  import opened CommitLogs
  import opened TopicSpec
  import opened Topics

  /** os.ReadDir: the names in byte order. */
  method ReadDir(names: set<string>) returns (order: seq<string>)
    ensures Increasing(order, NameLess) && Distinct(order)
    ensures forall n :: n in order <==> n in names
  {
    hide NameLess, Sort;
    var found: seq<string> := [];
    var rest := names;
    while rest != {}
      invariant rest <= names && Distinct(found)
      invariant forall n :: n in found <==> n in names - rest
      decreases |rest|
    {
      var n :| n in rest;
      assert n !in found;
      rest := rest - {n};
      found := found + [n];
    }
    NameOrder();
    SortIncreasing(found, NameLess);
    order := Sort(found, NameLess);
    forall n
      ensures n in order <==> n in names
    {
      SortMembers(found, NameLess, n);
    }
    assert forall i, j :: 0 <= i < j < |order| ==> NameLess(order[i], order[j]);
  }

  // ---------- the order of partition names ----------

  function PartitionNames(n: nat): (names: seq<string>)
    ensures |names| == n && forall i :: 0 <= i < n ==> names[i] == PartitionName(i)
  {
    seq(n, i requires 0 <= i < n => PartitionName(i))
  }

  lemma {:induction false} PrefixLess(prefix: string, a: string, b: string)
    ensures NameLess(prefix + a, prefix + b) <==> NameLess(a, b)
  {
    hide NameLess;
    var x, y := prefix + a, prefix + b;
    if prefix == "" {
      assert prefix + a == a && prefix + b == b;
    } else {
      PrefixLess(prefix[1..], a, b);
      assert x[1..] == prefix[1..] + a && y[1..] == prefix[1..] + b && x[0] == y[0] == prefix[0];
      SameHead(x, y);
    }
  }

  lemma SameHead(x: string, y: string)
    requires x != "" && y != "" && x[0] == y[0]
    ensures NameLess(x, y) <==> NameLess(x[1..], y[1..])
  {
  }

  lemma SingleDigits(i: nat, j: nat)
    requires i < j < 10
    ensures NameLess(PartitionName(i), PartitionName(j))
  {
    PrefixLess(PARTITION, Itoa(i), Itoa(j));
    assert Itoa(i) == [DigitChar(i)] && Itoa(j) == [DigitChar(j)];
  }

  lemma TenBeforeTwo()
    ensures !NameLess(PartitionName(2), PartitionName(10))
  {
    PrefixLess(PARTITION, Itoa(2), Itoa(10));
    assert Itoa(2) == [DigitChar(2)];
    assert Itoa(10) == ItoaNat(1) + [DigitChar(0)];
    assert ItoaNat(1) == [DigitChar(1)];
    assert Itoa(10)[0] == DigitChar(1);
  }

  /**
    Reloading finds every partition of the topic once; position i holds partition i, for all
    i, if and only if there are at most ten partitions.
   */
  lemma ReloadOrder(n: nat, order: seq<string>)
    requires Increasing(order, NameLess)
    requires forall name :: name in order <==> exists i :: 0 <= i < n && name == PartitionName(i)
    ensures order == PartitionNames(n) <==> n <= 10
  {
    hide NameLess, PartitionName;
    var names := PartitionNames(n);
    if n <= 10 {
      NameOrder();
      forall i, j | 0 <= i < j < n
        ensures NameLess(names[i], names[j])
      {
        SingleDigits(i, j);
      }
      forall name
        ensures name in names <==> name in order
      {
        if name in order {
          var i :| 0 <= i < n && name == PartitionName(i);
          assert names[i] == name;
        }
      }
      IncreasingUnique(names, order, NameLess);
    } else {
      TenBeforeTwo();
      assert names[2] == PartitionName(2) && names[10] == PartitionName(10);
    }
  }

  /** With at most ten partitions every key goes to the same partition after a reload. */
  lemma RoutingSurvives(hash: Hash, n: nat, order: seq<string>, key: bytes, counter: uint64)
    requires 0 < n <= 10 && key != [] && Increasing(order, NameLess)
    requires forall name :: name in order <==> exists i :: 0 <= i < n && name == PartitionName(i)
    ensures var p := Route(hash, n, counter, key);
            0 <= p < |order| && PartitionId(order[p]) == Some(p)
  {
    hide NameLess, PartitionName, PartitionId;
    ReloadOrder(n, order);
    PartitionNameRoundTrip(Route(hash, n, counter, key));
  }

  // ---------- reloading the logs ----------

  /** The entries that are partitions. */
  function Kept(order: seq<string>): seq<string> {
    if order == [] then []
    else
      var last := order[|order| - 1];
      Kept(order[..|order| - 1]) + if PartitionId(last).Some? then [last] else []
  }

  /** Every partition directory holds a closed log; no two names share a directory. */
  ghost predicate WellStored(tDir: TopicDir, chains: map<string, Chain>, max: int)
    reads tDir.Values
  {
    && (forall n :: n in tDir && PartitionId(n).Some?
          ==> n == PartitionName(PartitionId(n).value) && n in chains
              && OnDisk(tDir[n].files, chains[n]) && (chains[n] == [] || ChainOk(chains[n], max)))
    && (forall m, n :: m in tDir && n in tDir && m != n ==> tDir[m] != tDir[n])
  }

  /** The opened partitions, in the order of their directory names, hold the stored logs. */
  ghost predicate AllOpen(partitions: seq<Partition>, kept: seq<string>, chains: map<string, Chain>)
    reads set p <- partitions :: p.log, set p <- partitions, o <- p.log.Repr :: o
  {
    && |partitions| == |kept|
    && (forall i :: 0 <= i < |partitions|
          ==> kept[i] in chains && PartitionId(kept[i]) == Some(partitions[i].id))
    && (forall i :: 0 <= i < |partitions| ==> OpenedAs(partitions[i].log, chains[kept[i]]))
    && (forall i, j :: 0 <= i < j < |partitions|
          ==> partitions[i].log.Repr !! partitions[j].log.Repr)
  }

  ghost predicate OpenedAs(cl: CommitLog, chain: Chain)
    reads cl, cl.Repr
  {
    cl in cl.Repr && cl.Valid() && cl.segments != [] && cl.Chain() == Started(chain)
  }

  /** One partition directory that is still to be opened. */
  ghost predicate Pending(tDir: TopicDir, name: string, chains: map<string, Chain>, max: int)
    reads tDir.Values
  {
    && name in tDir && name in chains
    && PartitionId(name).Some? && name == PartitionName(PartitionId(name).value)
    && OnDisk(tDir[name].files, chains[name])
    && (chains[name] == [] || ChainOk(chains[name], max))
  }

  lemma AllOpenSnoc(partitions: seq<Partition>, kept: seq<string>, chains: map<string, Chain>,
                    repr: set<object>, p: Partition, name: string)
    requires AllOpen(partitions, kept, chains) && Within(partitions, repr)
    requires name in chains && PartitionId(name) == Some(p.id)
    requires OpenedAs(p.log, chains[name]) && p.log.Repr !! repr
    ensures AllOpen(partitions + [p], kept + [name], chains)
    ensures Within(partitions + [p], repr + p.log.Repr)
  {
    hide CommitLog.Valid, States, PartitionId;
    var all, names := partitions + [p], kept + [name];
    assert forall i :: 0 <= i < |partitions| ==> all[i] == partitions[i] && names[i] == kept[i];
  }

  /** One round of the inner loop of NewManager. */
  method OpenPartition(tDir: TopicDir, name: string, maxSegSize: int, partitions: seq<Partition>,
                       ghost kept: seq<string>, ghost chains: map<string, Chain>,
                       ghost repr: set<object>)
    returns (p: Partition)
    requires 1 <= maxSegSize <= B32 && Pending(tDir, name, chains, maxSegSize)
    requires AllOpen(partitions, kept, chains) && Within(partitions, repr)
    requires tDir[name] !in repr
    requires forall n :: n in tDir && n != name ==> tDir[n] != tDir[name]
    modifies tDir[name]
    ensures forall n :: n != name && old(Pending(tDir, n, chains, maxSegSize))
              ==> Pending(tDir, n, chains, maxSegSize)
    ensures fresh(p.log.Repr - {tDir[name]}) && OpenIn(p, tDir[name], maxSegSize)
    ensures AllOpen(partitions + [p], kept + [name], chains)
    ensures Within(partitions + [p], repr + p.log.Repr)
  {
    hide AllOpen, CommitLog.Valid, PartitionName, PartitionId, OnDisk, ChainOk, Started, OpenIn;
    ghost var after;
    p, after := NewPartition(tDir, PartitionId(name).value, maxSegSize, chains[name]);
    p.log.Basics();
    AllOpenSnoc(partitions, kept, chains, repr, p, name);
  }

  /** The inner loop of NewManager: opens every partition directory, in name order. */
  method ReloadTopic(name: bytes, tDir: TopicDir, maxSegSize: int, ghost chains: map<string, Chain>)
    returns (t: Topic, ghost order: seq<string>)
    requires 1 <= maxSegSize <= B32 && WellStored(tDir, chains, maxSegSize)
    modifies tDir.Values
    ensures Increasing(order, NameLess) && forall n :: n in order <==> n in tDir
    ensures t.name == name && t.rrCounter == 0 && AllOpen(t.partitions, Kept(order), chains)
    ensures OpenedIn(t.partitions, Kept(order), tDir, maxSegSize)
    ensures t.Owns() && fresh(t) && fresh(t.Repr - tDir.Values)
  {
    hide AllOpen, Within, PartitionId, NameLess, Pending, Kept, WellStored, OpenIn, OpenedIn;
    AllPending(tDir, chains, maxSegSize);
    var names := ReadDir(tDir.Keys);
    order := names;
    var partitions: seq<Partition> := [];
    ghost var repr: set<object> := {};
    NoneOpen(chains);
    NoneOpenedIn(tDir, maxSegSize);
    assert names[..0] == [];
    var i := 0;
    while i < |names|
      invariant 0 <= i <= |names|
      invariant AllOpen(partitions, Kept(names[..i]), chains) && Within(partitions, repr)
      invariant OpenedIn(partitions, Kept(names[..i]), tDir, maxSegSize)
      invariant forall o: object :: o in repr && o !in tDir.Values ==> fresh(o)
      invariant forall j :: i <= j < |names| ==> tDir[names[j]] !in repr
      invariant forall j :: i <= j < |names| && PartitionId(names[j]).Some?
                  ==> Pending(tDir, names[j], chains, maxSegSize)
    {
      KeptStep(names, i);
      match PartitionId(names[i]) {
        case None =>
        case Some(_) =>
          var p := OpenPartition(tDir, names[i], maxSegSize, partitions, Kept(names[..i]), chains, repr);
          OpenedInSnoc(partitions, Kept(names[..i]), tDir, maxSegSize, p, names[i]);
          partitions := partitions + [p];
          repr := repr + p.log.Repr;
      }
      i := i + 1;
    }
    assert names[..i] == names;
    t := NewTopicObject(name, partitions, Kept(names), chains, repr);
  }

  /** Each partition is open in the directory of its name. */
  ghost predicate OpenedIn(partitions: seq<Partition>, kept: seq<string>, tDir: TopicDir, max: int) {
    && |partitions| == |kept|
    && forall i :: 0 <= i < |partitions| ==> kept[i] in tDir && OpenIn(partitions[i], tDir[kept[i]], max)
  }

  lemma OpenedInSnoc(partitions: seq<Partition>, kept: seq<string>, tDir: TopicDir, max: int,
                     p: Partition, name: string)
    requires OpenedIn(partitions, kept, tDir, max) && name in tDir && OpenIn(p, tDir[name], max)
    ensures OpenedIn(partitions + [p], kept + [name], tDir, max)
  {
    hide OpenIn;
  }

  lemma NoneOpenedIn(tDir: TopicDir, max: int)
    ensures OpenedIn([], [], tDir, max)
  {
  }

  method NewTopicObject(name: bytes, partitions: seq<Partition>, ghost kept: seq<string>,
                        ghost chains: map<string, Chain>, ghost repr: set<object>)
    returns (t: Topic)
    requires AllOpen(partitions, kept, chains) && Within(partitions, repr)
    ensures t.name == name && t.rrCounter == 0 && t.partitions == partitions
    ensures AllOpen(t.partitions, kept, chains)
    ensures t.Owns() && fresh(t) && t.Repr == {t} + repr
  {
    hide OpenedAs, PartitionId, Within;
    t := new Topic(name, partitions, repr);
    InsideTopic(partitions, repr, t);
  }

  lemma KeptStep(names: seq<string>, i: nat)
    requires i < |names|
    ensures Kept(names[..i + 1])
         == if PartitionId(names[i]).Some? then Kept(names[..i]) + [names[i]] else Kept(names[..i])
  {
    hide PartitionId;
    assert names[..i + 1][..i] == names[..i];
  }

  lemma AllPending(tDir: TopicDir, chains: map<string, Chain>, max: int)
    requires WellStored(tDir, chains, max)
    ensures forall n :: n in tDir && PartitionId(n).Some? ==> Pending(tDir, n, chains, max)
    ensures forall m, n :: m in tDir && n in tDir && m != n
              ==> tDir[m] != tDir[n]
  {
    hide PartitionId, PartitionName, OnDisk, ChainOk;
  }

  lemma NoneOpen(chains: map<string, Chain>)
    ensures AllOpen([], Kept([]), chains) && Within([], {}) && Kept([]) == []
  {
  }
}
