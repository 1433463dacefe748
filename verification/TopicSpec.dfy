/**
  Routing messages to partitions (broker/topic/topic.go, Produce) as a function of the
  topic's state, and what it does over whole runs.
 */
module TopicSpec {
  import opened Bytes
  import opened Outcomes
  import opened Record
  import opened LogSpec

  type Hash = bytes -> uint32

  /**
    The messages of each partition, the round-robin counter, and the ids under which the
    partitions lie in the topic's directory.
   */
  datatype TopicState = TopicState(logs: seq<Messages>, counter: uint64, ids: seq<int>)

  datatype Produced = Produced(timestamp: int64, key: bytes, value: bytes)

  /** Go's %, whose result has the sign of the dividend. */
  function GoRem(a: int, n: int): (r: int)
    requires n > 0
    ensures -n < r < n
  {
    if a >= 0 then a % n else -((-a) % n)
  }

  /** The counter after choosing a partition: only a message without a key moves it. */
  function NextCounter(counter: uint64, key: bytes): uint64 {
    if key != [] then counter else (counter + 1) % B64
  }

  /** The partition index the code computes; it is negative once int(counter) is. */
  function Route(hash: Hash, n: int, counter: uint64, key: bytes): (index: int)
    requires n > 0
    ensures index < n
  {
    if key != [] then hash(key) % n else GoRem(Signed64(NextCounter(counter, key)), n)
  }

  /** The topic after a produce. */
  function ProduceNext(s: TopicState, hash: Hash, m: Produced): TopicState {
    if s.logs == [] then s
    else
      var p := Route(hash, |s.logs|, s.counter, m.key);
      var counter := NextCounter(s.counter, m.key);
      if p < 0 || KeyLen(m.key) > 65517 then s.(counter := counter)
      else
        s.(logs := s.logs[p := s.logs[p] + [AsStored(m.timestamp, m.key, m.value)]], counter := counter)
  }

  /** What a produce returns: the partition and the offset, an error, or a panic. */
  function ProduceReply(s: TopicState, hash: Hash, m: Produced): Outcome<(int, nat)> {
    if s.logs == [] then Err(NoPartitions)
    else
      var p := Route(hash, |s.logs|, s.counter, m.key);
      if p < 0 || KeyLen(m.key) > 65517 then Panic else Ok((p, |s.logs[p]|))
  }

  // ---------- runs ----------

  /** The ids of n partitions that were created one after the other. */
  function FirstIds(n: nat): (ids: seq<int>)
    ensures |ids| == n && forall i :: 0 <= i < n ==> ids[i] == i
  {
    seq(n, i => i)
  }

  function Fresh(n: nat): (s: TopicState)
    ensures |s.logs| == n && s.counter == 0 && forall p :: 0 <= p < n ==> s.logs[p] == []
    ensures s.ids == FirstIds(n)
  {
    TopicState(seq(n, _ => []), 0, FirstIds(n))
  }

  function After(hash: Hash, n: nat, ms: seq<Produced>): (s: TopicState)
    ensures |s.logs| == n
  {
    if ms == [] then Fresh(n) else ProduceNext(After(hash, n, ms[..|ms| - 1]), hash, ms[|ms| - 1])
  }

  /** Runs in which no produce panics: keys the codec takes, and a counter below 2^63. */
  ghost predicate Accepted(ms: seq<Produced>) {
    |ms| < 0x8000_0000_0000_0000
    && forall i :: 0 <= i < |ms| ==> KeyLen(ms[i].key) <= 65517
  }

  function Keyless(ms: seq<Produced>): (n: nat)
    ensures n <= |ms|
  {
    if ms == [] then 0
    else Keyless(ms[..|ms| - 1]) + if ms[|ms| - 1].key == [] then 1 else 0
  }

  /** Where message i of a run goes, told without the topic's state. */
  function Destination(hash: Hash, n: int, ms: seq<Produced>, i: nat): (p: int)
    requires n > 0 && i < |ms|
    ensures 0 <= p < n
  {
    if ms[i].key != [] then hash(ms[i].key) % n else (Keyless(ms[..i]) + 1) % n
  }

  /** The messages that went to one partition, in the order they were produced. */
  function Delivered(hash: Hash, n: int, ms: seq<Produced>, p: int): Messages
    requires n > 0
  {
    if ms == [] then []
    else
      var last := |ms| - 1;
      var before := Delivered(hash, n, ms[..last], p);
      if Destination(hash, n, ms, last) == p
      then before + [AsStored(ms[last].timestamp, ms[last].key, ms[last].value)] else before
  }

  lemma SmallCounter(hash: Hash, n: int, counter: uint64)
    requires n > 0 && counter + 1 < 0x8000_0000_0000_0000
    ensures Route(hash, n, counter, []) == (counter + 1) % n
    ensures NextCounter(counter, []) == counter + 1
  {
  }

  lemma KeyedRoute(hash: Hash, n: int, counter: uint64, key: bytes)
    requires n > 0 && key != []
    ensures Route(hash, n, counter, key) == hash(key) % n && NextCounter(counter, key) == counter
  {
  }

  /** The code's index and counter are the ones told from the run so far. */
  lemma RouteKnown(hash: Hash, n: nat, ms: seq<Produced>)
    requires n > 0 && ms != [] && Accepted(ms)
    ensures var last := |ms| - 1;
            && Route(hash, n, Keyless(ms[..last]), ms[last].key) == Destination(hash, n, ms, last)
            && NextCounter(Keyless(ms[..last]), ms[last].key) == Keyless(ms)
  {
    hide Route, NextCounter;
    var last := |ms| - 1;
    var counter := Keyless(ms[..last]);
    if ms[last].key == [] {
      SmallCounter(hash, n, counter);
    } else {
      KeyedRoute(hash, n, counter, ms[last].key);
    }
  }

  /** A produce that does not panic appends to the partition of its route. */
  lemma ProduceAppends(s: TopicState, hash: Hash, m: Produced, p: nat)
    requires s.logs != [] && p == Route(hash, |s.logs|, s.counter, m.key) && KeyLen(m.key) <= 65517
    ensures ProduceNext(s, hash, m)
         == s.(logs := s.logs[p := s.logs[p] + [AsStored(m.timestamp, m.key, m.value)]],
               counter := NextCounter(s.counter, m.key))
  {
    hide Route;
  }

  lemma {:induction false} CounterCounts(hash: Hash, n: nat, ms: seq<Produced>)
    requires n > 0 && Accepted(ms)
    ensures After(hash, n, ms).counter == Keyless(ms)
  {
    hide Route, Destination, NextCounter, ProduceNext;
    if ms != [] {
      var before := ms[..|ms| - 1];
      CounterCounts(hash, n, before);
      RouteKnown(hash, n, ms);
      ProduceAppends(After(hash, n, before), hash, ms[|ms| - 1], Destination(hash, n, ms, |ms| - 1));
    }
  }

  /**
    Every run puts each message into exactly one partition: a partition holds the messages
    with that destination, in produce order.
   */
  lemma {:induction false} RunDelivers(hash: Hash, n: nat, ms: seq<Produced>, p: nat)
    requires p < n && Accepted(ms)
    ensures After(hash, n, ms).logs[p] == Delivered(hash, n, ms, p)
  {
    hide Route, Destination, NextCounter, ProduceNext;
    if ms != [] {
      var before := ms[..|ms| - 1];
      RunDelivers(hash, n, before, p);
      CounterCounts(hash, n, before);
      RouteKnown(hash, n, ms);
      ProduceAppends(After(hash, n, before), hash, ms[|ms| - 1], Destination(hash, n, ms, |ms| - 1));
    }
  }

  // ---------- keys ----------

  /** The messages of a run with a given key, in produce order. */
  function WithKey(ms: seq<Produced>, key: bytes): Messages {
    if ms == [] then []
    else
      var last := ms[|ms| - 1];
      WithKey(ms[..|ms| - 1], key)
        + if last.key == key then [AsStored(last.timestamp, last.key, last.value)] else []
  }

  function Having(log: Messages, key: bytes): Messages {
    if log == [] then []
    else Having(log[..|log| - 1], key) + if log[|log| - 1].key == key then [log[|log| - 1]] else []
  }

  lemma HavingSnoc(log: Messages, r: Rec, key: bytes)
    ensures Having(log + [r], key) == if r.key == key then Having(log, key) + [r] else Having(log, key)
  {
    assert (log + [r])[..|log|] == log;
  }

  lemma WholeKey(m: Produced)
    requires |m.key| <= 65517
    ensures AsStored(m.timestamp, m.key, m.value).key == m.key
  {
  }

  lemma KeyedDestination(hash: Hash, n: int, ms: seq<Produced>, i: nat)
    requires n > 0 && i < |ms| && ms[i].key != []
    ensures Destination(hash, n, ms, i) == hash(ms[i].key) % n
  {
  }

  /**
    All messages with one non-empty key are in the partition its hash selects, in produce
    order, and in no other one.
   */
  lemma {:induction false} KeyOrder(hash: Hash, n: nat, ms: seq<Produced>, key: bytes, p: nat)
    requires p < n && key != []
    requires forall i :: 0 <= i < |ms| ==> |ms[i].key| <= 65517
    ensures Having(Delivered(hash, n, ms, p), key)
         == if p == hash(key) % n then WithKey(ms, key) else []
  {
    hide Destination, Having, AsStored;
    if ms != [] {
      var last := |ms| - 1;
      KeyOrder(hash, n, ms[..last], key, p);
      WholeKey(ms[last]);
      HavingSnoc(Delivered(hash, n, ms[..last], p),
                 AsStored(ms[last].timestamp, ms[last].key, ms[last].value), key);
      if ms[last].key == key {
        KeyedDestination(hash, n, ms, last);
      }
    } else {
      HavingNone(key);
    }
  }

  lemma HavingNone(key: bytes)
    ensures Having([], key) == []
  {
  }

  // ---------- counts ----------

  /** The messages in the first p partitions of a run. */
  function Total(logs: seq<Messages>): nat {
    if logs == [] then 0 else Total(logs[..|logs| - 1]) + |logs[|logs| - 1]|
  }

  lemma {:induction false} TotalUpdate(logs: seq<Messages>, p: nat, r: Rec)
    requires p < |logs|
    ensures Total(logs[p := logs[p] + [r]]) == Total(logs) + 1
  {
    var grown := logs[p := logs[p] + [r]];
    if p == |logs| - 1 {
      assert grown[..p] == logs[..p];
    } else {
      TotalUpdate(logs[..|logs| - 1], p, r);
      assert grown[..|logs| - 1] == logs[..|logs| - 1][p := logs[p] + [r]];
    }
  }

  lemma {:induction false} TotalEmpty(logs: seq<Messages>)
    requires forall p :: 0 <= p < |logs| ==> logs[p] == []
    ensures Total(logs) == 0
  {
    if logs != [] {
      TotalEmpty(logs[..|logs| - 1]);
    }
  }

  /** No message is lost or stored twice. */
  lemma {:induction false} CountsSum(hash: Hash, n: nat, ms: seq<Produced>)
    requires n > 0 && Accepted(ms)
    ensures Total(After(hash, n, ms).logs) == |ms|
  {
    hide Route, Destination, NextCounter, ProduceNext, Total, AsStored;
    if ms == [] {
      TotalEmpty(Fresh(n).logs);
    } else {
      var before := After(hash, n, ms[..|ms| - 1]);
      var m := ms[|ms| - 1];
      var p := Destination(hash, n, ms, |ms| - 1);
      CountsSum(hash, n, ms[..|ms| - 1]);
      CounterCounts(hash, n, ms[..|ms| - 1]);
      RouteKnown(hash, n, ms);
      ProduceAppends(before, hash, m, p);
      TotalUpdate(before.logs, p, AsStored(m.timestamp, m.key, m.value));
    }
  }

  // ---------- round robin ----------

  /** How many of the m keyless messages after the first c go to partition p. */
  function Hits(c: nat, m: nat, n: nat, p: nat): nat
    requires n > 0
  {
    if m == 0 then 0 else Hits(c, m - 1, n, p) + if (c + m) % n == p then 1 else 0
  }

  lemma DivUnique(x: int, n: int, q: int)
    requires n > 0 && n * q <= x < n * q + n
    ensures x / n == q && x % n == x - n * q
  {
    var d := x / n - q;
    assert x == n * (x / n) + x % n;
    assert n * (x / n) == n * q + n * d;
    MulGrows(n, d);
  }

  lemma MulGrows(n: int, d: int)
    requires n > 0
    ensures d >= 1 ==> n * d >= n
    ensures d <= -1 ==> n * d <= -n
  {
  }

  lemma DivStep(x: int, n: int)
    requires n > 0
    ensures (x + 1) / n == x / n + if (x + 1) % n == 0 then 1 else 0
  {
    var q := x / n;
    assert x == n * q + x % n;
    if x % n == n - 1 {
      assert n * (q + 1) == n * q + n;
      DivUnique(x + 1, n, q + 1);
    } else {
      DivUnique(x + 1, n, q);
    }
  }

  lemma ModShift(x: int, n: int, p: nat)
    requires n > 0 && p < n
    ensures (x - p) % n == 0 <==> x % n == p
  {
    var q := x / n;
    assert x == n * q + x % n;
    if x % n >= p {
      DivUnique(x - p, n, q);
    } else {
      assert n * (q - 1) == n * q - n;
      DivUnique(x - p, n, q - 1);
    }
  }

  /** The hits in closed form. */
  lemma {:induction false} HitsClosed(c: nat, m: nat, n: nat, p: nat)
    requires p < n
    ensures Hits(c, m, n, p) == (c + m - p) / n - (c - p) / n
  {
    if m > 0 {
      HitsClosed(c, m - 1, n, p);
      DivStep(c + m - 1 - p, n);
      ModShift(c + m, n, p);
    }
  }

  lemma DivSum(x: int, m: nat, n: int)
    requires n > 0
    ensures m / n <= (x + m) / n - x / n <= m / n + 1
    ensures m % n == 0 ==> (x + m) / n - x / n == m / n
  {
    var q, s := x / n, m / n;
    assert x == n * q + x % n && m == n * s + m % n;
    assert n * (q + s) == n * q + n * s;
    if x % n + m % n < n {
      DivUnique(x + m, n, q + s);
    } else {
      assert n * (q + s + 1) == n * (q + s) + n;
      DivUnique(x + m, n, q + s + 1);
    }
  }

  /** The hits of two partitions differ by at most one. */
  lemma Balanced(c: nat, m: nat, n: nat, p: nat, q: nat)
    requires p < n && q < n
    ensures -1 <= Hits(c, m, n, p) - Hits(c, m, n, q) <= 1
  {
    HitsClosed(c, m, n, p);
    HitsClosed(c, m, n, q);
    DivSum(c - p, m, n);
    DivSum(c - q, m, n);
  }

  /** The keyless messages of a run that went to a partition. */
  function KeylessAt(hash: Hash, n: int, ms: seq<Produced>, p: int): nat
    requires n > 0
  {
    if ms == [] then 0
    else
      var last := |ms| - 1;
      KeylessAt(hash, n, ms[..last], p)
        + if ms[last].key == [] && Destination(hash, n, ms, last) == p then 1 else 0
  }

  /** They are the hits of the whole run, so keyless traffic is balanced whatever is mixed in. */
  lemma {:induction false} KeylessHits(hash: Hash, n: nat, ms: seq<Produced>, p: nat)
    requires p < n
    ensures KeylessAt(hash, n, ms, p) == Hits(0, Keyless(ms), n, p)
  {
    if ms != [] {
      var last := |ms| - 1;
      KeylessHits(hash, n, ms[..last], p);
    }
  }

  lemma {:induction false} HitsAdd(c: nat, a: nat, b: nat, n: nat, p: nat)
    requires n > 0
    ensures Hits(c, a + b, n, p) == Hits(c, a, n, p) + Hits(c + a, b, n, p)
  {
    if b > 0 {
      HitsAdd(c, a, b - 1, n, p);
    }
  }

  /** The keyless messages that a stretch of a run adds to a partition. */
  lemma StretchHits(hash: Hash, n: nat, ms: seq<Produced>, more: seq<Produced>, p: nat)
    requires p < n && Keyless(ms) <= Keyless(ms + more)
    ensures KeylessAt(hash, n, ms + more, p)
         == KeylessAt(hash, n, ms, p) + Hits(Keyless(ms), Keyless(ms + more) - Keyless(ms), n, p)
  {
    KeylessHits(hash, n, ms, p);
    KeylessHits(hash, n, ms + more, p);
    HitsAdd(0, Keyless(ms), Keyless(ms + more) - Keyless(ms), n, p);
  }

  lemma {:induction false} KeylessGrows(ms: seq<Produced>, more: seq<Produced>)
    ensures Keyless(ms) <= Keyless(ms + more) <= Keyless(ms) + |more|
  {
    if more == [] {
      assert ms + more == ms;
    } else {
      KeylessGrows(ms, more[..|more| - 1]);
      assert (ms + more)[..|ms + more| - 1] == ms + more[..|more| - 1];
    }
  }

  /** They are the messages without a key that are stored there. */
  lemma {:induction false} KeylessDelivered(hash: Hash, n: nat, ms: seq<Produced>, p: nat)
    requires p < n && forall i :: 0 <= i < |ms| ==> |ms[i].key| <= 65517
    ensures |Having(Delivered(hash, n, ms, p), [])| == KeylessAt(hash, n, ms, p)
  {
    hide Destination, Having, AsStored;
    if ms == [] {
      HavingNone([]);
    } else {
      var last := |ms| - 1;
      KeylessDelivered(hash, n, ms[..last], p);
      WholeKey(ms[last]);
      HavingSnoc(Delivered(hash, n, ms[..last], p),
                 AsStored(ms[last].timestamp, ms[last].key, ms[last].value), []);
    }
  }

  /** The messages without a key in partition p behind a run. */
  function KeylessStored(hash: Hash, n: nat, ms: seq<Produced>, p: nat): nat
    requires p < n
  {
    |Having(After(hash, n, ms).logs[p], [])|
  }

  /** Runs in which every message is stored with its whole key. */
  ghost predicate Storable(ms: seq<Produced>) {
    |ms| < 0x8000_0000_0000_0000 && forall i :: 0 <= i < |ms| ==> |ms[i].key| <= 65517
  }

  lemma StoredKeyless(hash: Hash, n: nat, ms: seq<Produced>, more: seq<Produced>, p: nat)
    requires p < n && Storable(ms + more)
    ensures KeylessStored(hash, n, ms, p) == KeylessAt(hash, n, ms, p)
    ensures KeylessStored(hash, n, ms + more, p) == KeylessAt(hash, n, ms + more, p)
  {
    hide Destination, Having, AsStored, After;
    forall i | 0 <= i < |ms|
      ensures |ms[i].key| <= 65517
    {
      assert ms[i] == (ms + more)[i];
    }
    RunDelivers(hash, n, ms, p);
    RunDelivers(hash, n, ms + more, p);
    KeylessDelivered(hash, n, ms, p);
    KeylessDelivered(hash, n, ms + more, p);
  }

  /**
    Any n consecutive keyless produces store one message in each of the n partitions, wherever
    in a run they are and whatever keyed produces lie between them.
   */
  lemma RoundRobin(hash: Hash, n: nat, ms: seq<Produced>, more: seq<Produced>, p: nat)
    requires p < n && Storable(ms + more) && Keyless(ms + more) == Keyless(ms) + n
    ensures KeylessStored(hash, n, ms + more, p) == KeylessStored(hash, n, ms, p) + 1
  {
    hide Having, After, KeylessAt;
    StoredKeyless(hash, n, ms, more, p);
    StretchHits(hash, n, ms, more, p);
    HitsOnce(Keyless(ms), n, p);
  }

  lemma HitsOnce(c: nat, n: nat, p: nat)
    requires p < n
    ensures Hits(c, n, n, p) == 1
  {
    HitsClosed(c, n, n, p);
    DivSum(c - p, n, n);
    DivUnique(n, n, 1);
  }

  /** Over any stretch of a run the keyless messages are spread evenly over the partitions. */
  lemma KeylessBalanced(hash: Hash, n: nat, ms: seq<Produced>, more: seq<Produced>, p: nat, q: nat)
    requires p < n && q < n && Storable(ms + more)
    ensures var atP := KeylessStored(hash, n, ms + more, p) - KeylessStored(hash, n, ms, p);
            var atQ := KeylessStored(hash, n, ms + more, q) - KeylessStored(hash, n, ms, q);
            -1 <= atP - atQ <= 1
  {
    StoredKeyless(hash, n, ms, more, p);
    StoredKeyless(hash, n, ms, more, q);
    KeylessGrows(ms, more);
    StretchHits(hash, n, ms, more, p);
    StretchHits(hash, n, ms, more, q);
    Balanced(Keyless(ms), Keyless(ms + more) - Keyless(ms), n, p, q);
  }

  /**
    The counter bound is needed: a keyless produce panics if and only if the counter has
    reached 2^63 - 1 and is not on a multiple of the number of partitions.
   */
  lemma KeylessPanics(s: TopicState, hash: Hash, m: Produced)
    requires s.logs != [] && m.key == []
    ensures ProduceReply(s, hash, m) == Panic
       <==> var c := (s.counter + 1) % B64;
            c >= 0x8000_0000_0000_0000 && (B64 - c) % |s.logs| != 0
  {
  }
}
