/**
  What the broker answers (broker/network/server.go), as a function of its abstract state:
  append-only partitions, consumer offsets, and one reply per request.
 */
module BrokerSpec {
  import opened Bytes
  import opened LogSpec
  import opened TopicSpec
  import opened Topics
  import opened Protocol
  import opened Responses
  import opened Wire
  import opened Sorting
  import opened Places
  import opened Restart
  import opened Paths
  import GroupSpec

  const PRODUCE: uint16 := 0
  const FETCH: uint16 := 1
  const CREATE_TOPIC: uint16 := 2
  const LIST_TOPICS: uint16 := 3
  const COMMIT_OFFSET: uint16 := 4
  const FETCH_OFFSET: uint16 := 5

  const NONE: uint16 := 0
  const UNKNOWN_TOPIC: uint16 := 1
  const INVALID_REQUEST: uint16 := 2
  const INTERNAL: uint16 := 3
  const TOPIC_EXISTS: uint16 := 4

  /**
    What the environment decides: the hash, the clock, map iteration order, write errors, and
    the path of the directory for group offsets.
   */
  datatype Env = Env(hash: Hash, clock: nat -> int64, order: (nat, set<bytes>) -> seq<bytes>,
                     fault: nat -> GroupSpec.Fault, home: Path)

  /** A map iteration visits every key once. */
  ghost predicate Iterates(env: Env) {
    forall i, keys :: Distinct(env.order(i, keys)) && forall k :: k in env.order(i, keys) <==> k in keys
  }

  datatype State = State(topics: map<bytes, TopicState>, groups: GroupSpec.State)

  datatype Reply = Crashed | Replied(code: uint16, payload: bytes)

  // ---------- the handlers ----------

  function Refuse<T>(d: Parsed<T>): Reply
    requires !d.Parsed?
  {
    if d.Refused? then Replied(INVALID_REQUEST, []) else Crashed
  }

  function ProducePayload(partition: int, offset: nat): bytes {
    Put32(Unsigned32(Signed32(partition % B32))) + Put64(offset % B64)
  }

  function OnProduce(env: Env, i: nat, s: State, p: bytes): (State, Reply) {
    var d := DecodeProduceRequest(p);
    if !d.Parsed? then (s, Refuse(d))
    else if d.value.topic !in s.topics then (s, Replied(INTERNAL, []))
    else
      var t := s.topics[d.value.topic];
      var m := Produced(env.clock(i), d.value.key, d.value.value);
      (s.(topics := s.topics[d.value.topic := ProduceNext(t, env.hash, m)]),
       match ProduceReply(t, env.hash, m)
       case Ok((partition, offset)) => Replied(NONE, ProducePayload(partition, offset))
       case Err(_) => Replied(INTERNAL, [])
       case Panic => Crashed)
  }

  ghost function OnFetch(s: State, p: bytes): Reply {
    var d := DecodeFetchRequest(p);
    if !d.Parsed? then Refuse(d)
    else
      match ConsumeReply(s.topics, d.value.topic, d.value.partition, d.value.offset, d.value.maxCount)
      case Ok(ms) => Replied(NONE, FetchBytes(ms))
      case Err(_) => Replied(UNKNOWN_TOPIC, [])
      case Panic => Crashed
  }

  function OnCreateTopic(s: State, p: bytes): (State, Reply) {
    var d := DecodeCreateTopicRequest(p);
    if !d.Parsed? then (s, Refuse(d))
    else if d.value.topic in s.topics then (s, Replied(TOPIC_EXISTS, []))
    else (s.(topics := s.topics[d.value.topic := NewTopic(d.value.numPartitions)]), Replied(NONE, []))
  }

  ghost function OnListTopics(env: Env, i: nat, s: State): Reply
    requires Iterates(env)
  {
    Replied(NONE, Counted(Infos(env.order(i, s.topics.Keys), s.topics), TopicBytes))
  }

  function OnCommitOffset(env: Env, i: nat, s: State, p: bytes): (State, Reply) {
    var d := DecodeCommitOffsetRequest(p);
    if !d.Parsed? then (s, Refuse(d))
    else
      var r := d.value;
      var e := GroupSpec.Commit(r.group, r.topic, r.partition, r.offset, env.fault(i));
      (s.(groups := GroupSpec.Step(env.home, s.groups, e)),
       Replied(if env.fault(i) == GroupSpec.NoFault then NONE else INTERNAL, []))
  }

  function OnFetchOffset(s: State, p: bytes): Reply {
    var d := DecodeFetchOffsetRequest(p);
    if !d.Parsed? then Refuse(d)
    else
      match GroupSpec.Lookup(s.groups.memory, d.value.group, d.value.topic, d.value.partition)
      case Some(offset) => Replied(NONE, OffsetBytes(offset, true))
      case None => Replied(NONE, OffsetBytes(0, false))
  }

  /** Request number i: the next state and the reply. */
  ghost function Respond(env: Env, i: nat, s: State, c: Call): (State, Reply)
    requires Iterates(env)
  {
    if c.apiKey == PRODUCE then OnProduce(env, i, s, c.payload)
    else if c.apiKey == FETCH then (s, OnFetch(s, c.payload))
    else if c.apiKey == CREATE_TOPIC then OnCreateTopic(s, c.payload)
    else if c.apiKey == LIST_TOPICS then (s, OnListTopics(env, i, s))
    else if c.apiKey == COMMIT_OFFSET then OnCommitOffset(env, i, s, c.payload)
    else if c.apiKey == FETCH_OFFSET then (s, OnFetchOffset(s, c.payload))
    else (s, Replied(INVALID_REQUEST, []))
  }

  // ---------- a connection ----------

  datatype Session = Session(state: State, answers: seq<Answer>, crashed: bool)

  /** Serving a list of requests, the first of which has number start; a panic ends it. */
  ghost function Serve(env: Env, start: nat, s: State, calls: seq<Call>): Session
    requires Iterates(env)
  {
    if calls == [] then Session(s, [], false)
    else
      var last := |calls| - 1;
      var before := Serve(env, start, s, calls[..last]);
      if before.crashed then before
      else
        var (s', reply) := Respond(env, start + last, before.state, calls[last]);
        match reply
        case Crashed => Session(s', before.answers, true)
        case Replied(code, payload) =>
          Session(s', before.answers + [Answer(calls[last].id, code, payload)], false)
  }

  /** Serving one more request. */
  lemma ServeSnoc(env: Env, start: nat, s: State, calls: seq<Call>, n: nat)
    requires Iterates(env) && n < |calls| && !Serve(env, start, s, calls[..n]).crashed
    ensures var before := Serve(env, start, s, calls[..n]);
            var (s', reply) := Respond(env, start + n, before.state, calls[n]);
            Serve(env, start, s, calls[..n + 1])
            == match reply
               case Crashed => Session(s', before.answers, true)
               case Replied(code, payload) =>
                 Session(s', before.answers + [Answer(calls[n].id, code, payload)], false)
  {
    hide Respond, Iterates;
    assert calls[..n + 1][..n] == calls[..n];
  }

  /** The last request of a session. */
  lemma ServeLast(env: Env, start: nat, s: State, calls: seq<Call>)
    requires Iterates(env) && calls != []
    ensures var last := |calls| - 1;
            var before, r := Serve(env, start, s, calls[..last]), Serve(env, start, s, calls);
            var (t, reply) := Respond(env, start + last, before.state, calls[last]);
            r == if before.crashed then before
                 else match reply
                      case Crashed => Session(t, before.answers, true)
                      case Replied(code, payload) =>
                        Session(t, before.answers + [Answer(calls[last].id, code, payload)], false)
  {
    hide Respond, Iterates;
  }

  /**
    The answers are to a first part of the requests, in request order, under the same
    correlation ids; only a panic leaves requests without one.
   */
  lemma {:induction false} OneAnswerEach(env: Env, start: nat, s: State, calls: seq<Call>)
    requires Iterates(env)
    ensures var r := Serve(env, start, s, calls);
            && (if r.crashed then |r.answers| < |calls| else |r.answers| == |calls|)
            && forall j :: 0 <= j < |r.answers| ==> r.answers[j].id == calls[j].id
  {
    hide Respond, Iterates;
    if calls != [] {
      OneAnswerEach(env, start, s, calls[..|calls| - 1]);
    }
  }

  /** Nothing is served behind a panic. */
  lemma {:induction false} CrashStays(env: Env, start: nat, s: State, calls: seq<Call>, n: nat)
    requires Iterates(env) && n <= |calls| && Serve(env, start, s, calls[..n]).crashed
    ensures Serve(env, start, s, calls) == Serve(env, start, s, calls[..n])
  {
    hide Respond, Iterates;
    if n < |calls| {
      var q := calls[..|calls| - 1];
      assert q[..n] == calls[..n];
      CrashStays(env, start, s, q, n);
    } else {
      assert calls[..n] == calls;
    }
  }

  // ---------- growth ----------

  /** Topics keep their partitions, and partitions keep their messages. */
  ghost predicate Grows(s: State, t: State) {
    forall n :: n in s.topics
      ==> n in t.topics && LogsGrow(s.topics[n].logs, t.topics[n].logs)
  }

  ghost predicate LogsGrow(a: seq<Messages>, b: seq<Messages>) {
    |a| == |b| && forall p :: 0 <= p < |a| ==> a[p] <= b[p]
  }

  /** Partition numbers fit 32 bits, and no log is longer than the number of requests. */
  ghost predicate Small(s: State, i: nat) {
    forall n :: n in s.topics
      ==> |s.topics[n].logs| < 0x8000_0000
          && forall p :: 0 <= p < |s.topics[n].logs| ==> |s.topics[n].logs[p]| <= i
  }

  lemma ProduceGrows(t: TopicState, hash: Hash, m: Produced)
    ensures LogsGrow(t.logs, ProduceNext(t, hash, m).logs)
    ensures forall p :: 0 <= p < |t.logs| ==> |ProduceNext(t, hash, m).logs[p]| <= |t.logs[p]| + 1
  {
    hide Route, AsStored;
  }

  lemma OnProduceGrows(env: Env, i: nat, s: State, p: bytes)
    requires Small(s, i)
    ensures Grows(s, OnProduce(env, i, s, p).0) && Small(OnProduce(env, i, s, p).0, i + 1)
  {
    hide ProduceNext, ProduceReply, DecodeProduceRequest, LogsGrow;
    forall n | n in s.topics
      ensures LogsGrow(s.topics[n].logs, s.topics[n].logs)
    {
      LogsStay(s.topics[n].logs);
    }
    var d := DecodeProduceRequest(p);
    if d.Parsed? && d.value.topic in s.topics {
      DecodedKinds(p);
      var t := s.topics[d.value.topic];
      var m := Produced(env.clock(i), d.value.key, d.value.value);
      ProduceGrows(t, env.hash, m);
      SameWidth(t.logs, ProduceNext(t, env.hash, m).logs);
    }
  }

  lemma LogsStay(a: seq<Messages>)
    ensures LogsGrow(a, a)
  {
  }

  lemma SameWidth(a: seq<Messages>, b: seq<Messages>)
    requires LogsGrow(a, b)
    ensures |a| == |b|
  {
  }

  lemma OnCreateGrows(s: State, p: bytes, i: nat)
    requires Small(s, i)
    ensures Grows(s, OnCreateTopic(s, p).0) && Small(OnCreateTopic(s, p).0, i)
  {
    hide LogsGrow;
    forall n | n in s.topics
      ensures LogsGrow(s.topics[n].logs, s.topics[n].logs)
    {
      LogsStay(s.topics[n].logs);
    }
  }

  lemma GrowsSelf(s: State)
    ensures Grows(s, s)
  {
  }

  lemma SmallLater(s: State, i: nat)
    requires Small(s, i)
    ensures Small(s, i + 1)
  {
  }

  /** Whatever the request, nothing that was stored is lost or changed. */
  lemma RespondGrows(env: Env, i: nat, s: State, c: Call)
    requires Iterates(env) && Small(s, i)
    ensures Grows(s, Respond(env, i, s, c).0) && Small(Respond(env, i, s, c).0, i + 1)
  {
    hide OnProduce, OnFetch, OnCreateTopic, OnListTopics, OnFetchOffset, Iterates, Small, Grows;
    GrowsSelf(s);
    SmallLater(s, i);
    if c.apiKey == PRODUCE {
      OnProduceGrows(env, i, s, c.payload);
    } else if c.apiKey == CREATE_TOPIC {
      OnCreateGrows(s, c.payload, i);
      SmallLater(OnCreateTopic(s, c.payload).0, i);
    } else if c.apiKey == COMMIT_OFFSET {
      CommitKeepsTopics(env, i, s, c.payload);
      SameTopics(s, OnCommitOffset(env, i, s, c.payload).0, i + 1);
    }
  }

  lemma CommitKeepsTopics(env: Env, i: nat, s: State, p: bytes)
    ensures OnCommitOffset(env, i, s, p).0.topics == s.topics
  {
  }

  lemma SameTopics(s: State, t: State, i: nat)
    requires s.topics == t.topics
    ensures Grows(s, t) && (Small(s, i) ==> Small(t, i))
  {
  }

  lemma GrowsOn(a: State, b: State, c: State)
    requires Grows(a, b) && Grows(b, c)
    ensures Grows(a, c)
  {
    forall n | n in a.topics
      ensures n in c.topics && LogsGrow(a.topics[n].logs, c.topics[n].logs)
    {
    }
  }

  /** Over a whole session too. */
  lemma {:induction false} ServeGrows(env: Env, start: nat, s: State, calls: seq<Call>)
    requires Iterates(env) && Small(s, start)
    ensures var r := Serve(env, start, s, calls);
            Grows(s, r.state) && Small(r.state, start + |calls|)
  {
    hide Respond, Iterates, Small, Grows;
    if calls == [] {
      GrowsSelf(s);
    } else {
      var last := |calls| - 1;
      var before := Serve(env, start, s, calls[..last]);
      ServeGrows(env, start, s, calls[..last]);
      SmallLater(before.state, start + last);
      if !before.crashed {
        RespondGrows(env, start + last, before.state, calls[last]);
        GrowsOn(s, before.state, Respond(env, start + last, before.state, calls[last]).0);
      }
    }
  }

  // ---------- restarts ----------

  /**
    What a restart of the broker leaves: the visible topics as they are reloaded, and the
    published offsets.
   */
  function RestartState(s: State): State {
    State(AllReloaded(s.topics, VisibleOf(s.topics.Keys)),
          GroupSpec.Reopened(s.groups))
  }

  /** Every partition of every topic has its id. */
  ghost predicate AllPlaced(s: State) {
    forall n :: n in s.topics ==> Placed(s.topics[n])
  }

  lemma RestartSmall(s: State, i: nat)
    requires Small(s, i) && AllPlaced(s)
    ensures Small(RestartState(s), i) && AllPlaced(RestartState(s))
  {
    hide Placed, Reloaded, VisibleOf, NewPlace;
    var t := RestartState(s);
    forall n | n in t.topics
      ensures Placed(t.topics[n]) && |t.topics[n].logs| < 0x8000_0000
      ensures forall p :: 0 <= p < |t.topics[n].logs| ==> |t.topics[n].logs[p]| <= i
    {
      assert n in VisibleOf(s.topics.Keys);
      VisibleIn(s.topics.Keys, n);
      ReloadedPlaced(s.topics[n]);
      ReloadedSmall(s.topics[n], i);
    }
  }

  lemma VisibleIn(names: set<bytes>, n: bytes)
    ensures n in VisibleOf(names) <==> n in names && Visible(n)
  {
  }

  lemma ReloadedSmall(t: TopicState, i: nat)
    requires Placed(t) && forall p :: 0 <= p < |t.logs| ==> |t.logs[p]| <= i
    ensures forall p :: 0 <= p < |Reloaded(t).logs| ==> |Reloaded(t).logs[p]| <= i
  {
  }

  lemma FreshPlaced(n: int64)
    ensures Placed(NewTopic(n))
  {
  }

  lemma ProducePlaced(t: TopicState, hash: Hash, m: Produced)
    requires Placed(t)
    ensures Placed(ProduceNext(t, hash, m)) && ProduceNext(t, hash, m).ids == t.ids
  {
    hide Numbered, Route;
  }

  /** No request changes where a topic's partitions are. */
  lemma RespondPlaced(env: Env, i: nat, s: State, c: Call)
    requires Iterates(env) && AllPlaced(s)
    ensures AllPlaced(Respond(env, i, s, c).0)
    ensures var t := Respond(env, i, s, c).0;
            forall n :: n in s.topics ==> n in t.topics && t.topics[n].ids == s.topics[n].ids
  {
    hide Iterates, OnFetch, OnListTopics, OnFetchOffset, OnCommitOffset, Placed, ProduceNext,
         ProduceReply, DecodeProduceRequest, DecodeCreateTopicRequest, NewTopic;
    DecodedKinds(c.payload);
    CommitKeepsTopics(env, i, s, c.payload);
    if c.apiKey == PRODUCE && DecodeProduceRequest(c.payload).Parsed? {
      var r := DecodeProduceRequest(c.payload).value;
      if r.topic in s.topics {
        ProducePlaced(s.topics[r.topic], env.hash, Produced.Produced(env.clock(i), r.key, r.value));
      }
    } else if c.apiKey == CREATE_TOPIC && DecodeCreateTopicRequest(c.payload).Parsed? {
      FreshPlaced(DecodeCreateTopicRequest(c.payload).value.numPartitions);
    }
  }

  lemma {:induction false} ServePlaced(env: Env, start: nat, s: State, calls: seq<Call>)
    requires Iterates(env) && AllPlaced(s)
    ensures var t := Serve(env, start, s, calls).state;
            && AllPlaced(t)
            && forall n :: n in s.topics ==> n in t.topics && t.topics[n].ids == s.topics[n].ids
  {
    hide Respond, Iterates, Placed;
    if calls != [] {
      var last := |calls| - 1;
      ServePlaced(env, start, s, calls[..last]);
      RespondPlaced(env, start + last, Serve(env, start, s, calls[..last]).state, calls[last]);
    }
  }
}
