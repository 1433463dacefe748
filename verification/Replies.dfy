/**
  What each request is answered with and what it changes (broker/network/server.go), at the
  numbers that go over the wire: API keys 0 to 5 and error codes 0 to 4.
 */
module Replies {
  import opened Bytes
  import opened LogSpec
  import opened TopicSpec
  import opened Topics
  import opened Protocol
  import opened Responses
  import opened Wire
  import opened Decimal
  import opened Sorting
  import opened Paths
  import opened BrokerSpec
  import opened Answering
  import opened EndToEnd
  import GroupSpec

  // ---------- requests that are not understood ----------

  /** A request with any other API key is answered with code 2 and changes nothing. */
  lemma OtherKey(env: Env, i: nat, s: State, c: Call)
    requires Iterates(env) && c.apiKey > 5
    ensures Respond(env, i, s, c) == (s, Replied(2, []))
  {
    hide Iterates;
  }

  /** The requests that belong to an API key. */
  predicate OfKey(key: uint16, r: Request) {
    match r
    case Produce(_, _, _, _) => key == 0
    case Fetch(_, _, _, _) => key == 1
    case CreateTopic(_, _) => key == 2
    case CommitOffset(_, _, _, _) => key == 4
    case FetchOffset(_, _, _) => key == 5
  }

  /** No well-formed request of its API key is a prefix of the payload. */
  ghost predicate Unrequested(c: Call) {
    forall r :: OfKey(c.apiKey, r) && Protocol.Encodable(r) ==> !(Encode(r) <= c.payload)
  }

  lemma NotParsed(c: Call)
    requires c.apiKey in {0, 1, 2, 4, 5} && !Malformed(c) && Unrequested(c)
    ensures c.apiKey == 0 ==> DecodeProduceRequest(c.payload) == Refused
    ensures c.apiKey == 1 ==> DecodeFetchRequest(c.payload) == Refused
    ensures c.apiKey == 2 ==> DecodeCreateTopicRequest(c.payload) == Refused
    ensures c.apiKey == 4 ==> DecodeCommitOffsetRequest(c.payload) == Refused
    ensures c.apiKey == 5 ==> DecodeFetchOffsetRequest(c.payload) == Refused
  {
    hide DecodeProduceRequest, DecodeFetchRequest, DecodeCreateTopicRequest, DecodeCommitOffsetRequest,
         DecodeFetchOffsetRequest, Encode, Protocol.Encodable, Crashes;
    var p := c.payload;
    DecodedKinds(p);
    if c.apiKey == 0 {
      ProduceCrashes(p);
      if DecodeProduceRequest(p).Parsed? { ProduceDecodes(p, DecodeProduceRequest(p).value); }
    } else if c.apiKey == 1 {
      FetchCrashes(p);
      if DecodeFetchRequest(p).Parsed? { FetchDecodes(p, DecodeFetchRequest(p).value); }
    } else if c.apiKey == 2 {
      CreateTopicCrashes(p);
      if DecodeCreateTopicRequest(p).Parsed? { CreateTopicDecodes(p, DecodeCreateTopicRequest(p).value); }
    } else if c.apiKey == 4 {
      CommitOffsetCrashes(p);
      if DecodeCommitOffsetRequest(p).Parsed? { CommitOffsetDecodes(p, DecodeCommitOffsetRequest(p).value); }
    } else {
      FetchOffsetCrashes(p);
      if DecodeFetchOffsetRequest(p).Parsed? { FetchOffsetDecodes(p, DecodeFetchOffsetRequest(p).value); }
    }
  }

  /**
    A payload that no well-formed request of its API key begins, and on which the decoder does
    not panic, is answered with code 2 and changes nothing.
   */
  lemma RefusedReply(env: Env, i: nat, s: State, c: Call)
    requires Iterates(env) && c.apiKey in {0, 1, 2, 4, 5} && !Malformed(c) && Unrequested(c)
    ensures Respond(env, i, s, c) == (s, Replied(2, []))
  {
    hide Iterates, DecodeProduceRequest, DecodeFetchRequest, DecodeCreateTopicRequest,
         DecodeCommitOffsetRequest, DecodeFetchOffsetRequest, Malformed, Unrequested;
    NotParsed(c);
  }

  // ---------- produce and fetch ----------

  /** A produce to a topic that does not exist or has no partitions is answered with code 3. */
  lemma UnroutedReply(env: Env, i: nat, s: State, c: Call, r: Request)
    requires Iterates(env) && c.apiKey == 0 && DecodeProduceRequest(c.payload) == Parsed(r)
    requires r.topic !in s.topics || s.topics[r.topic].logs == []
    ensures Respond(env, i, s, c).1 == Replied(3, [])
    ensures Respond(env, i, s, c).0 == s
  {
    hide Iterates, DecodeProduceRequest;
    DecodedKinds(c.payload);
    if r.topic in s.topics {
      var t := s.topics[r.topic];
      NoLogsReply(t, env.hash, Produced.Produced(env.clock(i), r.key, r.value));
      assert s.topics[r.topic := t] == s.topics;
    }
  }

  /** A fetch of a topic or partition that does not exist is answered with code 1. */
  lemma UnknownReply(env: Env, i: nat, s: State, c: Call, r: Request)
    requires Iterates(env) && c.apiKey == 1 && DecodeFetchRequest(c.payload) == Parsed(r)
    requires r.topic !in s.topics || r.partition < 0 || r.partition >= |s.topics[r.topic].logs|
    ensures Respond(env, i, s, c) == (s, Replied(1, []))
  {
    hide Iterates, DecodeFetchRequest;
    DecodedKinds(c.payload);
  }

  // ---------- creation ----------

  /**
    A creation of an absent topic is answered with code 0 and makes as many empty partitions
    as it says, counted from 0, or none if it says a negative number; no other topic changes.
    For a topic that exists it is answered with code 4 and changes nothing.
   */
  lemma CreateReply(env: Env, i: nat, s: State, c: Call, name: bytes, n: int32)
    requires Iterates(env) && c.apiKey == 2
    requires DecodeCreateTopicRequest(c.payload) == Parsed(CreateTopic(name, n))
    ensures name in s.topics ==> Respond(env, i, s, c) == (s, Replied(4, []))
    ensures name !in s.topics
        ==> var (t, reply) := Respond(env, i, s, c);
            && reply == Replied(0, []) && t.groups == s.groups
            && t.topics.Keys == s.topics.Keys + {name}
            && (forall other :: other in s.topics ==> t.topics[other] == s.topics[other])
            && |t.topics[name].logs| == (if n < 0 then 0 else n) && t.topics[name].counter == 0
            && |t.topics[name].ids| == |t.topics[name].logs|
            && forall p :: 0 <= p < |t.topics[name].ids|
                 ==> t.topics[name].logs[p] == [] && t.topics[name].ids[p] == p
  {
    hide Iterates, DecodeCreateTopicRequest, NewTopic;
  }

  /** In a session: the first creation of a topic that is not there is answered 0, others 4. */
  lemma SessionCreates(env: Env, start: nat, s: State, calls: seq<Call>, k: nat, name: bytes, n: int32)
    requires Iterates(env) && CountersBelow(s, |calls|)
    requires k < |calls| && k < |Serve(env, start, s, calls).answers| && calls[k].apiKey == 2
    requires DecodeCreateTopicRequest(calls[k].payload) == Parsed(CreateTopic(name, n))
    ensures var answer := Serve(env, start, s, calls).answers[k];
            && answer.id == calls[k].id && answer.payload == []
            && answer.code == if PartitionsOf(s, calls[..k], name) == None then 0 else 4
    ensures PartitionsOf(s, calls[..k + 1], name)
         == if PartitionsOf(s, calls[..k], name) == None then Some(if n < 0 then 0 else n)
            else PartitionsOf(s, calls[..k], name)
  {
    hide Iterates, Serve, DecodeCreateTopicRequest, Respond, CountersBelow;
    AnswerOf(env, start, s, calls, k);
    NotCrashedBefore(env, start, s, calls, k);
    TopicsKnown(env, start, s, calls[..k], |calls|);
    var before := Serve(env, start, s, calls[..k]).state;
    CreateReply(env, start + k, before, calls[k], name, n);
    assert PartitionsNow(before, name) == PartitionsOf(s, calls[..k], name);
    assert calls[..k + 1][..k] == calls[..k];
  }

  // ---------- the list ----------

  lemma {:induction false} InfosEach(order: seq<bytes>, s: map<bytes, TopicState>, k: nat)
    requires (forall i :: 0 <= i < |order| ==> order[i] in s) && k < |order|
    ensures Infos(order, s)[k]
         == TopicInfo(order[k], |s[order[k]].logs|, Total(s[order[k]].logs) % B64)
  {
    if k < |order| - 1 {
      InfosEach(order[..|order| - 1], s, k);
    }
  }

  /**
    A list request is answered with code 0 and a list that a client reads as every topic
    exactly once, with its number of partitions and the sum of its log lengths.
   */
  lemma ListReply(env: Env, i: nat, s: State, c: Call)
    requires Iterates(env) && c.apiKey == 3 && |s.topics| < B32
    requires forall n :: n in s.topics ==> |n| < B16 && |s.topics[n].logs| < B32
    ensures Respond(env, i, s, c).0 == s
    ensures var reply := Respond(env, i, s, c).1;
            reply.Replied? && reply.code == 0
            && var list := ReadCounted(reply.payload, ReadTopic);
               && list.Some? && |list.value| == |s.topics|
               && (forall j, k :: 0 <= j < k < |list.value| ==> list.value[j].name != list.value[k].name)
               && forall k :: 0 <= k < |list.value|
                    ==> var t := list.value[k];
                        && t.name in s.topics && t.partitions == |s.topics[t.name].logs|
                        && t.messages == Total(s.topics[t.name].logs) % B64
  {
    hide Counted, ReadCounted, ReadTopic, TopicBytes, Infos, Total;
    var order := env.order(i, s.topics.Keys);
    var infos := Infos(order, s.topics);
    CountDistinct(order, s.topics.Keys);
    forall k | 0 <= k < |order|
      ensures infos[k]
           == TopicInfo(order[k], |s.topics[order[k]].logs|, Total(s.topics[order[k]].logs) % B64)
    {
      InfosEach(order, s.topics, k);
    }
    ListRoundTrip(infos);
  }

  lemma {:induction false} CountDistinct<T>(order: seq<T>, keys: set<T>)
    requires Distinct(order) && forall k :: k in order <==> k in keys
    ensures |order| == |keys|
    decreases |order|
  {
    if order == [] {
      assert forall k :: k in keys ==> k in order;
      assert keys == {};
    } else {
      var last := order[|order| - 1];
      var q := order[..|order| - 1];
      forall k
        ensures k in q <==> k in keys - {last}
      {
        assert k in order <==> k in q || k == last;
      }
      CountDistinct(q, keys - {last});
    }
  }

  /** The produces to a topic that were answered with code 0. */
  function AckCount(calls: seq<Call>, answers: seq<Answer>, topic: bytes): nat
    requires |answers| <= |calls|
    decreases |answers|
  {
    if answers == [] then 0
    else
      var last := |answers| - 1;
      var d := DecodeProduceRequest(calls[last].payload);
      AckCount(calls, answers[..last], topic)
        + if calls[last].apiKey == 0 && d.Parsed? && d.value.Produce? && d.value.topic == topic
             && answers[last].code == 0
          then 1 else 0
  }

  function TotalIn(s: State, topic: bytes): nat {
    if topic in s.topics then Total(s.topics[topic].logs) else 0
  }

  lemma ProduceTotal(env: Env, i: nat, s: State, p: bytes, r: Request)
    requires DecodeProduceRequest(p) == Parsed(r) && r.Produce?
    ensures var (t, reply) := OnProduce(env, i, s, p);
            TotalIn(t, r.topic) == TotalIn(s, r.topic) + if reply.Replied? && reply.code == 0 then 1 else 0
    ensures forall other :: other != r.topic
              ==> TotalIn(OnProduce(env, i, s, p).0, other) == TotalIn(s, other)
  {
    hide DecodeProduceRequest, Route, Total, AsStored, ProducePayload;
    if r.topic in s.topics && s.topics[r.topic].logs != [] {
      var t := s.topics[r.topic];
      var q := Route(env.hash, |t.logs|, t.counter, r.key);
      if q >= 0 {
        TotalUpdate(t.logs, q, AsStored(env.clock(i), r.key, r.value));
      }
    }
  }

  lemma CreateTotal(s: State, p: bytes, topic: bytes)
    ensures TotalIn(OnCreateTopic(s, p).0, topic) == TotalIn(s, topic)
  {
    hide DecodeCreateTopicRequest, Total, NewTopic;
    var d := DecodeCreateTopicRequest(p);
    if d.Parsed? {
      DecodedKinds(p);
      TotalEmpty(NewTopic(d.value.numPartitions).logs);
    }
  }

  lemma RespondTotal(env: Env, i: nat, s: State, c: Call, topic: bytes)
    requires Iterates(env)
    ensures var (t, reply) := Respond(env, i, s, c);
            var d := DecodeProduceRequest(c.payload);
            TotalIn(t, topic)
            == TotalIn(s, topic)
               + if c.apiKey == 0 && d.Parsed? && d.value.Produce? && d.value.topic == topic
                    && reply.Replied? && reply.code == 0
                 then 1 else 0
  {
    hide Iterates, DecodeProduceRequest, OnProduce, OnCreateTopic, OnFetch, OnListTopics, OnCommitOffset,
         OnFetchOffset, Total;
    DecodedKinds(c.payload);
    CommitKeepsTopics(env, i, s, c.payload);
    CreateTotal(s, c.payload, topic);
    if c.apiKey == 0 {
      if DecodeProduceRequest(c.payload).Parsed? {
        ProduceTotal(env, i, s, c.payload, DecodeProduceRequest(c.payload).value);
      } else {
        UnparsedKeeps(env, i, s, c.payload);
      }
    }
  }

  lemma UnparsedKeeps(env: Env, i: nat, s: State, p: bytes)
    requires !DecodeProduceRequest(p).Parsed?
    ensures OnProduce(env, i, s, p).0 == s
  {
    hide DecodeProduceRequest;
  }

  /**
    Over any session the message total of a topic grows by the number of its acknowledged
    produces: for one that is new, or not there yet, it is that number.
   */
  lemma {:induction false} SessionTotal(env: Env, start: nat, s: State, calls: seq<Call>, topic: bytes)
    requires Iterates(env)
    ensures |Serve(env, start, s, calls).answers| <= |calls|
    ensures TotalIn(Serve(env, start, s, calls).state, topic)
         == TotalIn(s, topic) + AckCount(calls, Serve(env, start, s, calls).answers, topic)
  {
    hide Iterates, Respond, Serve, TotalIn, DecodeProduceRequest;
    OneAnswerEach(env, start, s, calls);
    if calls == [] {
      NothingServed(env, start, s, calls);
      assert calls[..0] == calls;
    } else {
      var last := |calls| - 1;
      var q := calls[..last];
      var before := Serve(env, start, s, q);
      SessionTotal(env, start, s, q, topic);
      OneAnswerEach(env, start, s, q);
      ServeLast(env, start, s, calls);
      SameCount(calls, q, before.answers, topic);
      if !before.crashed {
        RespondTotal(env, start + last, before.state, calls[last], topic);
        match Respond(env, start + last, before.state, calls[last]).1 {
          case Crashed =>
          case Replied(code, payload) =>
            AckMore(calls, before.answers, Answer(calls[last].id, code, payload), topic);
        }
      }
    }
  }

  lemma AckMore(calls: seq<Call>, answers: seq<Answer>, a: Answer, topic: bytes)
    requires |answers| < |calls|
    ensures var d := DecodeProduceRequest(calls[|answers|].payload);
            AckCount(calls, answers + [a], topic)
            == AckCount(calls, answers, topic)
               + if calls[|answers|].apiKey == 0 && d.Parsed? && d.value.Produce?
                    && d.value.topic == topic && a.code == 0
                 then 1 else 0
  {
    hide DecodeProduceRequest;
    assert (answers + [a])[..|answers|] == answers;
  }

  lemma {:induction false} SameCount(calls: seq<Call>, q: seq<Call>, answers: seq<Answer>, topic: bytes)
    requires |answers| <= |q| && q <= calls
    ensures AckCount(calls, answers, topic) == AckCount(q, answers, topic)
    decreases |answers|
  {
    hide DecodeProduceRequest;
    if answers != [] {
      SameCount(calls, q, answers[..|answers| - 1], topic);
    }
  }

  // ---------- offsets ----------

  /**
    A commit is answered with code 0 if and only if its write met no fault, and with code 3
    otherwise. Either way memory has the offset from then on.
   */
  lemma CommitReply(env: Env, i: nat, s: State, c: Call, g: bytes, t: bytes, p: int32, o: uint64)
    requires Iterates(env) && c.apiKey == 4
    requires DecodeCommitOffsetRequest(c.payload) == Parsed(CommitOffset(g, t, p, o))
    ensures var (after, reply) := Respond(env, i, s, c);
            && reply == (if env.fault(i) == GroupSpec.NoFault then Replied(0, []) else Replied(3, []))
            && after.topics == s.topics
            && GroupSpec.Lookup(after.groups.memory, g, t, p) == Some(o)
  {
    hide Iterates, DecodeCommitOffsetRequest, GroupSpec.With, GroupSpec.Lookup, FileOf;
    GroupSpec.LookupWith(s.groups.memory, g, t, p, o, g, t, p);
  }

  /** An offset fetch is answered with the offset and 1, or with 0 and 0 if there is none. */
  lemma FetchOffsetReply(env: Env, i: nat, s: State, c: Call, g: bytes, t: bytes, p: int32)
    requires Iterates(env) && c.apiKey == 5
    requires DecodeFetchOffsetRequest(c.payload) == Parsed(FetchOffset(g, t, p))
    ensures var (after, reply) := Respond(env, i, s, c);
            && after == s && reply.Replied? && reply.code == 0 && |reply.payload| == 9
            && match GroupSpec.Lookup(s.groups.memory, g, t, p)
               case Some(o) => Get64(reply.payload[..8]) == o && reply.payload[8] == 1
               case None => Get64(reply.payload[..8]) == 0 && reply.payload[8] == 0
  {
    hide Iterates, DecodeFetchOffsetRequest, GroupSpec.Lookup, OffsetBytes, Get64;
    match GroupSpec.Lookup(s.groups.memory, g, t, p) {
      case Some(o) => OffsetRoundTrip(o, true);
      case None =>
        OffsetRoundTrip(0, false);
        NotFoundByte();
    }
  }

  lemma NotFoundByte()
    ensures OffsetBytes(0, false)[8] == 0
  {
  }
}
