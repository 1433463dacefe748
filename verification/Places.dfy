/**
  Where a reload puts each partition (broker/topic/topic.go, NewManager): directory entries
  come in the byte order of their names, so the positions are those of the sorted names.
 */
module Places {
  import opened Decimal
  import opened Sorting
  import opened LogSpec
  import opened TopicSpec
  import opened Topics
  import opened Reload

  /** The first position of an id, or the length if there is none. */
  function IndexOf(ids: seq<int>, id: int): (i: nat)
    ensures i <= |ids| && (if i < |ids| then ids[i] == id else id !in ids)
  {
    if ids == [] || ids[0] == id then 0 else 1 + IndexOf(ids[1..], id)
  }

  /** The directory names of these partitions, in byte order. */
  function Order(ids: seq<int>): seq<string> { Sort(NamesOf(ids), NameLess) }

  function IdAt(name: string): int {
    match PartitionId(name)
    case Some(id) => id
    case None => 0
  }

  /** The ids in the order of their names. */
  function SortedIds(ids: seq<int>): (sorted: seq<int>)
    ensures |sorted| == |Order(ids)|
    ensures forall k :: 0 <= k < |sorted| ==> sorted[k] == IdAt(Order(ids)[k])
  {
    seq(|Order(ids)|, k requires 0 <= k < |Order(ids)| => IdAt(Order(ids)[k]))
  }

  function LogOf(s: TopicState, id: int): Messages {
    var i := IndexOf(s.ids, id);
    if i < |s.logs| then s.logs[i] else []
  }

  /** The partitions in the order of their names, and a new round-robin counter. */
  function Reloaded(s: TopicState): (r: TopicState)
    ensures r.ids == SortedIds(s.ids) && r.counter == 0 && |r.logs| == |r.ids|
    ensures forall k :: 0 <= k < |r.logs| ==> r.logs[k] == LogOf(s, r.ids[k])
  {
    var ids := SortedIds(s.ids);
    TopicState(seq(|ids|, k requires 0 <= k < |ids| => LogOf(s, ids[k])), 0, ids)
  }

  /** Every partition has its id. */
  ghost predicate Placed(s: TopicState) {
    Numbered(s.ids) && |s.ids| == |s.logs|
  }

  lemma NamesDiffer(ids: seq<int>)
    requires Numbered(ids)
    ensures Distinct(NamesOf(ids)) && Distinct(ids)
    ensures forall i :: 0 <= i < |ids|
              ==> PartitionId(NamesOf(ids)[i]) == Some(ids[i]) && IdAt(NamesOf(ids)[i]) == ids[i]
  {
    hide NameLess, PartitionName, PartitionId;
    NameOrder();
    forall i | 0 <= i < |ids|
      ensures PartitionId(NamesOf(ids)[i]) == Some(ids[i])
    {
      PartitionNameRoundTrip(ids[i]);
    }
    forall i, j | 0 <= i < j < |ids|
      ensures NamesOf(ids)[i] != NamesOf(ids)[j]
    {
      assert Increasing(NamesOf(ids), NameLess) ==> NameLess(NamesOf(ids)[i], NamesOf(ids)[j]);
    }
  }

  /** The order has each name once. */
  lemma OrderFacts(ids: seq<int>)
    requires Numbered(ids)
    ensures |Order(ids)| == |ids| && Increasing(Order(ids), NameLess)
    ensures forall name :: name in Order(ids) <==> name in NamesOf(ids)
  {
    hide NameLess, PartitionName, PartitionId, Numbered, Sort;
    NameOrder();
    NamesDiffer(ids);
    SortIncreasing(NamesOf(ids), NameLess);
    SortElements(NamesOf(ids), NameLess);
    assert |multiset(Order(ids))| == |multiset(NamesOf(ids))|;
    forall name
      ensures name in Order(ids) <==> name in NamesOf(ids)
    {
      SortMembers(NamesOf(ids), NameLess, name);
    }
  }

  /** A directory listing is that order. */
  lemma ListingIsOrder(ids: seq<int>, listing: seq<string>)
    requires Numbered(ids) && Increasing(listing, NameLess)
    requires forall name :: name in listing <==> name in NamesOf(ids)
    ensures listing == Order(ids)
  {
    hide NameLess, PartitionName, Numbered;
    NameOrder();
    OrderFacts(ids);
    IncreasingUnique(listing, Order(ids), NameLess);
  }

  /** The sorted ids are the ids, each of them once. */
  lemma SortedFacts(ids: seq<int>)
    requires Numbered(ids)
    ensures |SortedIds(ids)| == |ids| && NamesOf(SortedIds(ids)) == Order(ids)
    ensures Numbered(SortedIds(ids))
    ensures forall id :: id in SortedIds(ids) <==> id in ids
  {
    hide NameLess, PartitionName, PartitionId, Order, IdAt;
    OrderFacts(ids);
    NamesDiffer(ids);
    var names, order, sorted := NamesOf(ids), Order(ids), SortedIds(ids);
    forall k | 0 <= k < |order|
      ensures sorted[k] in ids && order[k] == PartitionName(sorted[k])
    {
      assert order[k] in names;
      var i :| 0 <= i < |ids| && order[k] == names[i];
    }
    forall id | id in ids
      ensures id in sorted
    {
      var i :| 0 <= i < |ids| && ids[i] == id;
      assert names[i] in order;
      var k :| 0 <= k < |order| && order[k] == names[i];
      assert sorted[k] == id;
    }
    assert NamesOf(sorted) == order;
  }

  lemma ReloadedPlaced(s: TopicState)
    requires Placed(s)
    ensures Placed(Reloaded(s)) && |Reloaded(s).logs| == |s.logs|
  {
    hide Numbered;
    SortedFacts(s.ids);
  }

  /** The position at which partition p comes back. */
  function NewPlace(s: TopicState, p: nat): nat
    requires p < |s.ids|
  {
    IndexOf(SortedIds(s.ids), s.ids[p])
  }

  /**
    Every partition comes back at exactly one position, with its messages: the position of its
    name among the sorted names.
   */
  lemma ReloadPermutes(s: TopicState)
    requires Placed(s)
    ensures var r := Reloaded(s);
            && |r.logs| == |s.logs|
            && (forall p :: 0 <= p < |s.logs|
                  ==> NewPlace(s, p) < |r.logs| && r.logs[NewPlace(s, p)] == s.logs[p]
                      && r.ids[NewPlace(s, p)] == s.ids[p])
            && (forall p, q :: 0 <= p < q < |s.logs| ==> NewPlace(s, p) != NewPlace(s, q))
  {
    hide Numbered, SortedIds, IndexOf;
    SortedFacts(s.ids);
    NamesDiffer(s.ids);
    var r := Reloaded(s);
    forall p | 0 <= p < |s.logs|
      ensures NewPlace(s, p) < |r.logs| && r.logs[NewPlace(s, p)] == s.logs[p]
      ensures r.ids[NewPlace(s, p)] == s.ids[p]
    {
      assert s.ids[p] in r.ids;
      assert IndexOf(s.ids, s.ids[p]) == p by { assert s.ids[p] in s.ids; }
    }
  }

  /** Partitions whose names are in order already stay where they are. */
  lemma OrderedStay(s: TopicState)
    requires Placed(s) && Increasing(NamesOf(s.ids), NameLess)
    ensures Reloaded(s) == s.(counter := 0)
  {
    hide NameLess, PartitionName, PartitionId, Order, IdAt, NamesOf;
    var ids := s.ids;
    ListingIsOrder(ids, NamesOf(ids));
    NamesDiffer(ids);
    assert SortedIds(ids) == ids;
    forall k | 0 <= k < |ids|
      ensures IndexOf(ids, ids[k]) == k
    {
      assert ids[k] in ids;
    }
    assert Reloaded(s).logs == s.logs;
  }

  /** With at most ten partitions a restart keeps every partition where it was. */
  lemma FewStay(s: TopicState)
    requires Placed(s) && |s.ids| <= 10
    ensures Reloaded(s) == s.(counter := 0)
  {
    hide NameLess, PartitionName, Reloaded;
    var ids := s.ids;
    if forall i :: 0 <= i < |ids| ==> ids[i] == i {
      forall i, j | 0 <= i < j < |ids|
        ensures NameLess(NamesOf(ids)[i], NamesOf(ids)[j])
      {
        SingleDigits(i, j);
      }
    }
    OrderedStay(s);
  }

  /** A second restart moves nothing. */
  lemma RestartOnce(s: TopicState)
    requires Placed(s)
    ensures Reloaded(Reloaded(s)) == Reloaded(s)
  {
    hide NameLess, PartitionName, PartitionId, Order, Numbered, Reloaded;
    SortedFacts(s.ids);
    OrderFacts(s.ids);
    ReloadedPlaced(s);
    OrderedStay(Reloaded(s));
  }

  /** Sorting the ids again changes nothing. */
  lemma SortedTwice(ids: seq<int>)
    requires Numbered(ids)
    ensures SortedIds(SortedIds(ids)) == SortedIds(ids)
  {
    hide Numbered, SortedIds, Reloaded;
    RestartOnce(TopicState(seq(|ids|, _ => []), 0, ids));
  }
}
