/**
  When every request gets its response (broker/network/server.go): exactly which requests
  panic instead, told from the bytes a client sends. API keys are the numbers on the wire: 0 for
  produce, 1 fetch, 2 create topic, 3 list topics, 4 commit offset and 5 fetch offset.
 */
module Answering {
  import opened Bytes
  import opened Outcomes
  import opened Record
  import opened TopicSpec
  import opened Topics
  import opened Protocol
  import opened Responses
  import opened Wire
  import opened Decimal
  import opened BrokerSpec

  // ---------- one request ----------

  /** The payloads on which the decoder of the request slices out of range. */
  predicate Malformed(c: Call) {
    if c.apiKey == 0 then Crashes(c.payload, 8)
    else if c.apiKey == 1 then Crashes(c.payload, 18)
    else if c.apiKey == 2 then Crashes(c.payload, 6)
    else if c.apiKey == 4 || c.apiKey == 5 then Crashes(c.payload, 4)
    else false
  }

  /** A produce request whose message has a key too long for the record format. */
  predicate LongKey(c: Call, topic: bytes) {
    c.apiKey == 0
    && var d := DecodeProduceRequest(c.payload);
       d.Parsed? && d.value.Produce? && d.value.topic == topic && |d.value.key| > 65517
  }

  predicate Keyless(c: Call, topic: bytes) {
    c.apiKey == 0
    && var d := DecodeProduceRequest(c.payload);
       d.Parsed? && d.value.Produce? && d.value.topic == topic && d.value.key == []
  }

  /** The round-robin counter is about to give a negative partition index. */
  predicate Overrun(t: TopicState)
    requires t.logs != []
  {
    var c := (t.counter + 1) % B64;
    c >= 0x8000_0000_0000_0000 && (B64 - c) % |t.logs| != 0
  }

  predicate HasPartitions(s: State, topic: bytes) {
    topic in s.topics && s.topics[topic].logs != []
  }

  /** The topic of a produce request, empty for any other. */
  function TopicOf(c: Call): bytes {
    var d := DecodeProduceRequest(c.payload);
    if c.apiKey == 0 && d.Parsed? && d.value.Produce? then d.value.topic else []
  }

  predicate Fatal(s: State, c: Call) {
    Malformed(c)
    || (HasPartitions(s, TopicOf(c))
        && (LongKey(c, TopicOf(c)) || (Keyless(c, TopicOf(c)) && Overrun(s.topics[TopicOf(c)]))))
  }

  lemma ReplyPanics(t: TopicState, hash: Hash, m: Produced)
    requires t.logs != []
    ensures ProduceReply(t, hash, m) == Panic
       <==> KeyLen(m.key) > 65517 || (m.key == [] && Overrun(t))
  {
    hide Route;
    if m.key == [] {
      KeylessPanics(t, hash, m);
    } else {
      KeyedRoute(hash, |t.logs|, t.counter, m.key);
    }
  }

  lemma NoLogsReply(t: TopicState, hash: Hash, m: Produced)
    requires t.logs == []
    ensures ProduceReply(t, hash, m) == Err(NoPartitions)
  {
  }

  lemma ProduceFatal(env: Env, i: nat, s: State, c: Call)
    requires c.apiKey == 0
    ensures OnProduce(env, i, s, c.payload).1 == Crashed <==> Fatal(s, c)
  {
    hide DecodeProduceRequest, Crashes, OnProduce, Fatal;
    ProduceCrashes(c.payload);
    DecodedKinds(c.payload);
    var d := DecodeProduceRequest(c.payload);
    if d.Parsed? {
      ParsedFatal(env, i, s, c, d.value);
    } else {
      UnparsedFatal(env, i, s, c);
    }
  }

  lemma UnparsedFatal(env: Env, i: nat, s: State, c: Call)
    requires c.apiKey == 0 && !DecodeProduceRequest(c.payload).Parsed?
    ensures OnProduce(env, i, s, c.payload).1 == Crashed <==> Fatal(s, c)
  {
    hide DecodeProduceRequest, Crashes;
    ProduceCrashes(c.payload);
  }

  lemma ParsedFatal(env: Env, i: nat, s: State, c: Call, r: Request)
    requires c.apiKey == 0 && DecodeProduceRequest(c.payload) == Parsed(r) && r.Produce?
    ensures OnProduce(env, i, s, c.payload).1 == Crashed <==> Fatal(s, c)
  {
    hide DecodeProduceRequest, Crashes, ProduceReply, ProduceNext, Overrun, ProducePayload;
    ProduceCrashes(c.payload);
    ShortKey(c.payload);
    if r.topic in s.topics {
      var t := s.topics[r.topic];
      var m := Produced.Produced(env.clock(i), r.key, r.value);
      if t.logs == [] {
        NoLogsReply(t, env.hash, m);
      } else {
        ReplyPanics(t, env.hash, m);
      }
    }
  }

  /** A request panics exactly if it is one of these. */
  lemma RespondCrashes(env: Env, i: nat, s: State, c: Call)
    requires Iterates(env)
    ensures Respond(env, i, s, c).1 == Crashed <==> Fatal(s, c)
  {
    hide Iterates, Crashes, DecodeProduceRequest, DecodeFetchRequest, DecodeCreateTopicRequest,
         DecodeCommitOffsetRequest, DecodeFetchOffsetRequest, OnProduce, FetchBytes, OffsetBytes;
    if c.apiKey == 0 {
      ProduceFatal(env, i, s, c);
    }
    FetchCrashes(c.payload);
    CreateTopicCrashes(c.payload);
    CommitOffsetCrashes(c.payload);
    FetchOffsetCrashes(c.payload);
  }

  // ---------- a session ----------

  /** An answered request was not fatal. */
  lemma {:induction false} AnsweredNotFatal(env: Env, start: nat, s: State, calls: seq<Call>, k: nat)
    requires Iterates(env) && k < |calls| && k < |Serve(env, start, s, calls).answers|
    ensures !Serve(env, start, s, calls[..k]).crashed
    ensures !Fatal(Serve(env, start, s, calls[..k]).state, calls[k])
  {
    hide Respond, Iterates, Fatal;
    var last := |calls| - 1;
    var q := calls[..last];
    OneAnswerEach(env, start, s, q);
    if k < last {
      assert q[..k] == calls[..k];
      AnsweredNotFatal(env, start, s, q, k);
    } else {
      RespondCrashes(env, start + last, Serve(env, start, s, q).state, calls[last]);
    }
  }

  /** A session ends early at a fatal request. */
  lemma {:induction false} EndsAtFatal(env: Env, start: nat, s: State, calls: seq<Call>)
    requires Iterates(env) && Serve(env, start, s, calls).crashed
    ensures var k := |Serve(env, start, s, calls).answers|;
            && k < |calls| && !Serve(env, start, s, calls[..k]).crashed
            && Fatal(Serve(env, start, s, calls[..k]).state, calls[k])
  {
    hide Respond, Iterates, Fatal;
    var last := |calls| - 1;
    var q := calls[..last];
    OneAnswerEach(env, start, s, q);
    var before := Serve(env, start, s, q);
    if before.crashed {
      EndsAtFatal(env, start, s, q);
      assert q[..|before.answers|] == calls[..|before.answers|];
    } else {
      RespondCrashes(env, start + last, before.state, calls[last]);
    }
  }

  /**
    Exactly one response per request, up to the first fatal one: the count of answers is its
    number, or the number of requests if there is none.
   */
  lemma AnsweredUntilFatal(env: Env, start: nat, s: State, calls: seq<Call>)
    requires Iterates(env)
    ensures var r := Serve(env, start, s, calls);
            && |r.answers| <= |calls| && (r.crashed <==> |r.answers| < |calls|)
            && (forall k :: 0 <= k < |r.answers|
                  ==> !Fatal(Serve(env, start, s, calls[..k]).state, calls[k]))
            && (r.crashed
                ==> Fatal(Serve(env, start, s, calls[..|r.answers|]).state, calls[|r.answers|]))
  {
    hide Serve, Iterates, Fatal;
    OneAnswerEach(env, start, s, calls);
    forall k | 0 <= k < |Serve(env, start, s, calls).answers|
      ensures !Fatal(Serve(env, start, s, calls[..k]).state, calls[k])
    {
      AnsweredNotFatal(env, start, s, calls, k);
    }
    if Serve(env, start, s, calls).crashed {
      EndsAtFatal(env, start, s, calls);
    }
  }

  // ---------- told from the bytes ----------

  /** How many partitions a topic has behind these requests, if it exists. */
  function PartitionsOf(s: State, calls: seq<Call>, topic: bytes): Option<nat> {
    if topic in s.topics then Some(|s.topics[topic].logs|)
    else if calls == [] then None
    else
      var last := calls[|calls| - 1];
      var d := DecodeCreateTopicRequest(last.payload);
      match PartitionsOf(s, calls[..|calls| - 1], topic)
      case Some(n) => Some(n)
      case None =>
        if last.apiKey == 2 && d.Parsed? && d.value.CreateTopic? && d.value.topic == topic
        then Some(if d.value.numPartitions < 0 then 0 else d.value.numPartitions) else None
  }

  function PartitionsNow(s: State, topic: bytes): Option<nat> {
    if topic in s.topics then Some(|s.topics[topic].logs|) else None
  }

  /**
    Request k panics: it is malformed, or its key is too long and its topic has partitions.
    This looks at the bytes of the requests and at the topics of the beginning only.
   */
  predicate Deadly(s: State, calls: seq<Call>, k: nat)
    requires k < |calls|
  {
    Malformed(calls[k])
    || (LongKey(calls[k], TopicOf(calls[k]))
        && var n := PartitionsOf(s, calls[..k], TopicOf(calls[k])); n.Some? && n.value > 0)
  }

  /** No round-robin counter reaches 2^63 within this many requests. */
  ghost predicate CountersBelow(s: State, requests: nat) {
    requests < 0x8000_0000_0000_0000
    && forall n :: n in s.topics ==> s.topics[n].counter + requests < 0x8000_0000_0000_0000
  }

  lemma NotOverrun(s: State, requests: nat, topic: bytes)
    requires CountersBelow(s, requests) && requests > 0 && HasPartitions(s, topic)
    ensures !Overrun(s.topics[topic])
  {
  }

  lemma CounterStep(t: TopicState, hash: Hash, m: Produced)
    requires t.counter + 1 < B64
    ensures ProduceNext(t, hash, m).counter <= t.counter + 1
    ensures |ProduceNext(t, hash, m).logs| == |t.logs|
  {
    hide Route;
  }

  lemma NewCounter(n: int64)
    ensures NewTopic(n).counter == 0
  {
  }

  /** One request creates at most one topic and moves at most one counter, by one. */
  lemma RespondTopics(env: Env, i: nat, s: State, c: Call, requests: nat)
    requires Iterates(env) && requests > 0 && CountersBelow(s, requests)
    ensures CountersBelow(Respond(env, i, s, c).0, requests - 1)
    ensures forall topic :: PartitionsNow(Respond(env, i, s, c).0, topic) == PartitionsOf(s, [c], topic)
  {
    hide Iterates, OnFetch, OnListTopics, OnFetchOffset, OnCommitOffset, ProduceNext, ProduceReply,
         DecodeProduceRequest, DecodeCreateTopicRequest, NewTopic;
    DecodedKinds(c.payload);
    CommitKeepsTopics(env, i, s, c.payload);
    assert [c][..0] == [];
    if c.apiKey == 0 && DecodeProduceRequest(c.payload).Parsed? {
      var r := DecodeProduceRequest(c.payload).value;
      if r.topic in s.topics {
        CounterStep(s.topics[r.topic], env.hash, Produced.Produced(env.clock(i), r.key, r.value));
      }
    }
    if c.apiKey == 2 && DecodeCreateTopicRequest(c.payload).Parsed? {
      NewCounter(DecodeCreateTopicRequest(c.payload).value.numPartitions);
    }
  }

  /** The topics behind a session are those of its creation requests. */
  lemma {:induction false} TopicsKnown(env: Env, start: nat, s: State, calls: seq<Call>, requests: nat)
    requires Iterates(env) && CountersBelow(s, requests) && |calls| <= requests
    requires !Serve(env, start, s, calls).crashed
    ensures CountersBelow(Serve(env, start, s, calls).state, requests - |calls|)
    ensures forall topic :: PartitionsNow(Serve(env, start, s, calls).state, topic)
                         == PartitionsOf(s, calls, topic)
  {
    hide Respond, Iterates, CountersBelow, DecodeCreateTopicRequest, NewTopic;
    if calls != [] {
      var last := |calls| - 1;
      var before := Serve(env, start, s, calls[..last]).state;
      TopicsKnown(env, start, s, calls[..last], requests);
      RespondTopics(env, start + last, before, calls[last], requests - last);
      forall topic
        ensures PartitionsOf(before, [calls[last]], topic) == PartitionsOf(s, calls, topic)
      {
        assert [calls[last]][..0] == [];
        assert PartitionsNow(before, topic) == PartitionsOf(s, calls[..last], topic);
      }
    }
  }

  /** With small counters a request is fatal exactly if its bytes say so. */
  lemma FatalKnown(env: Env, start: nat, s: State, calls: seq<Call>, k: nat)
    requires Iterates(env) && CountersBelow(s, |calls|) && k < |calls|
    requires !Serve(env, start, s, calls[..k]).crashed
    ensures Fatal(Serve(env, start, s, calls[..k]).state, calls[k]) <==> Deadly(s, calls, k)
  {
    hide Iterates, Serve, Malformed, LongKey, Keyless, Overrun, TopicOf, CountersBelow, PartitionsOf;
    var before, topic := Serve(env, start, s, calls[..k]).state, TopicOf(calls[k]);
    TopicsKnown(env, start, s, calls[..k], |calls|);
    if HasPartitions(before, topic) {
      NotOverrun(before, |calls| - k, topic);
    }
    assert PartitionsNow(before, topic) == PartitionsOf(s, calls[..k], topic);
  }

  /**
    One response per request, exactly: as long as no counter reaches 2^63, a session answers
    the requests in front of the first deadly one, and every request if there is none.
   */
  lemma AllAnswered(env: Env, start: nat, s: State, calls: seq<Call>)
    requires Iterates(env) && CountersBelow(s, |calls|)
    ensures var r := Serve(env, start, s, calls);
            && |r.answers| <= |calls|
            && (r.crashed <==> exists k :: 0 <= k < |calls| && Deadly(s, calls, k))
            && (|r.answers| == |calls| <==> forall k :: 0 <= k < |calls| ==> !Deadly(s, calls, k))
            && (forall k :: 0 <= k < |r.answers| ==> !Deadly(s, calls, k))
            && (|r.answers| < |calls| ==> Deadly(s, calls, |r.answers|))
  {
    hide Serve, Iterates, Fatal, Deadly, CountersBelow;
    OneAnswerEach(env, start, s, calls);
    var r := Serve(env, start, s, calls);
    forall k | 0 <= k < |r.answers|
      ensures !Deadly(s, calls, k)
    {
      AnsweredNotFatal(env, start, s, calls, k);
      FatalKnown(env, start, s, calls, k);
    }
    if r.crashed {
      EndsAtFatal(env, start, s, calls);
      FatalKnown(env, start, s, calls, |r.answers|);
    }
  }

  // ---------- requests that kill the broker ----------

  /** Seven bytes that the produce decoder slices out of range, in a well-formed frame. */
  lemma WrappedNameKills(env: Env, start: nat, s: State, id: uint32)
    requires Iterates(env)
    ensures var c := Call(0, id, [255, 255, 0, 0, 0, 0, 0]);
            Framed(c) && Serve(env, start, s, [c]).crashed && Serve(env, start, s, [c]).answers == []
  {
    hide Respond, Iterates;
    var c := Call(0, id, [255, 255, 0, 0, 0, 0, 0]);
    assert c.payload[0..2] == [255, 255];
    assert Fatal(s, c);
    RespondCrashes(env, start, s, c);
    assert [c][..0] == [];
  }

  /** A well-formed produce with the shortest key that is too long. */
  lemma LongKeyKills(env: Env, start: nat, s: State, id: uint32, topic: bytes)
    requires Iterates(env) && |topic| <= 65533 && HasPartitions(s, topic)
    ensures var r := Produce(topic, 0, Zeros(65518), []);
            var c := Call(0, id, Encode(r));
            && Protocol.Encodable(r) && Framed(c) && DecodeProduceRequest(c.payload) == Parsed(r)
            && Serve(env, start, s, [c]).crashed && Serve(env, start, s, [c]).answers == []
  {
    hide Respond, Iterates, DecodeProduceRequest, Encode, Zeros, Malformed;
    var r := Produce(topic, 0, Zeros(65518), []);
    var c := Call(0, id, Encode(r));
    DecodesEncoded(r);
    EncodedFront(r);
    RespondCrashes(env, start, s, c);
    assert [c][..0] == [];
  }
}
