/**
  What a client reads from its connection: which answers it can read back at all, and what it
  finds in the answers to its fetches.
 */
module Clients {
  import opened Bytes
  import opened Record
  import opened Segments
  import opened LogSpec
  import opened TopicSpec
  import opened Topics
  import opened Protocol
  import opened Responses
  import opened Wire
  import opened Decimal
  import opened BrokerSpec
  import opened Answering
  import opened EndToEnd

  // ---------- the size of a response ----------

  /** The bytes of these messages in a fetch response. */
  function PageSize(ms: seq<Message>): nat {
    if ms == [] then 0
    else PageSize(ms[..|ms| - 1]) + 22 + |ms[|ms| - 1].key| + |ms[|ms| - 1].value|
  }

  function ListSize(ts: seq<TopicInfo>): nat {
    if ts == [] then 0 else ListSize(ts[..|ts| - 1]) + 14 + |ts[|ts| - 1].name|
  }

  lemma {:induction false} PageBytes(ms: seq<Message>)
    ensures |ListBytes(ms, MessageBytes)| == PageSize(ms)
  {
    if ms != [] {
      PageBytes(ms[..|ms| - 1]);
    }
  }

  lemma {:induction false} TopicsBytes(ts: seq<TopicInfo>)
    ensures |ListBytes(ts, TopicBytes)| == ListSize(ts)
  {
    if ts != [] {
      TopicsBytes(ts[..|ts| - 1]);
    }
  }

  /** The messages a fetch request asks for, if it reaches a partition. */
  function Asked(s: State, p: bytes): seq<Message> {
    var d := DecodeFetchRequest(p);
    if d.Parsed? && d.value.Fetch? && d.value.topic in s.topics
       && 0 <= d.value.partition < |s.topics[d.value.topic].logs|
    then LogSpec.Fetch(s.topics[d.value.topic].logs[d.value.partition], 0, d.value.offset, d.value.maxCount)
    else []
  }

  /**
    The requests whose response is too long for its length field: a fetch of a page, or a
    topic list, of 2^32 - 10 bytes or more.
   */
  ghost predicate Oversized(env: Env, i: nat, s: State, c: Call)
    requires Iterates(env)
  {
    if c.apiKey == 1 then 10 + PageSize(Asked(s, c.payload)) >= B32
    else if c.apiKey == 3 then
      10 + ListSize(Infos(env.order(i, s.topics.Keys), s.topics)) >= B32
    else false
  }

  lemma FetchSized(s: State, p: bytes)
    ensures OnFetch(s, p).Replied?
        ==> (6 + |OnFetch(s, p).payload| >= B32 <==> 10 + PageSize(Asked(s, p)) >= B32)
  {
    hide DecodeFetchRequest, LogSpec.Fetch, ListBytes, MessageBytes, Put32;
    DecodedKinds(p);
    PageBytes(Asked(s, p));
    NoPage();
  }

  lemma NoPage()
    ensures PageSize([]) == 0
  {
  }

  lemma OthersSized(env: Env, i: nat, s: State, p: bytes)
    ensures var r := OnProduce(env, i, s, p).1; r.Replied? ==> |r.payload| <= 12
    ensures var r := OnCreateTopic(s, p).1; r.Replied? ==> |r.payload| <= 12
    ensures var r := OnCommitOffset(env, i, s, p).1; r.Replied? ==> |r.payload| <= 12
    ensures var r := OnFetchOffset(s, p); r.Replied? ==> |r.payload| <= 12
  {
    hide DecodeProduceRequest, DecodeCreateTopicRequest, DecodeCommitOffsetRequest,
         DecodeFetchOffsetRequest, ProduceReply, ProduceNext, Put32, Put64, GroupSpec.Step,
         GroupSpec.Lookup, NewTopic;
  }

  lemma ListSized(env: Env, i: nat, s: State)
    requires Iterates(env)
    ensures OnListTopics(env, i, s).Replied?
    ensures |OnListTopics(env, i, s).payload|
         == 4 + ListSize(Infos(env.order(i, s.topics.Keys), s.topics))
  {
    hide ListBytes, TopicBytes, Put32, Infos;
    TopicsBytes(Infos(env.order(i, s.topics.Keys), s.topics));
  }

  /** Which replies have a length that wraps. */
  lemma ReplyOversized(env: Env, i: nat, s: State, c: Call)
    requires Iterates(env) && Respond(env, i, s, c).1.Replied?
    ensures 6 + |Respond(env, i, s, c).1.payload| >= B32 <==> Oversized(env, i, s, c)
  {
    hide Iterates, OnProduce, OnFetch, OnCreateTopic, OnCommitOffset, OnFetchOffset, OnListTopics, Asked,
         Infos;
    OthersSized(env, i, s, c.payload);
    if c.apiKey == 1 {
      FetchSized(s, c.payload);
    } else if c.apiKey == 3 {
      ListSized(env, i, s);
    }
  }

  // ---------- reading the stream ----------

  /** Request k of a session has an oversized response. */
  ghost predicate OversizedAt(env: Env, start: nat, s: State, calls: seq<Call>, k: nat)
    requires Iterates(env) && k < |calls|
  {
    Oversized(env, start + k, Serve(env, start, s, calls[..k]).state, calls[k])
  }

  lemma AnswerSendable(env: Env, start: nat, s: State, calls: seq<Call>, k: nat)
    requires Iterates(env) && k < |calls| && k < |Serve(env, start, s, calls).answers|
    ensures Sendable(Serve(env, start, s, calls).answers[k]) <==> !OversizedAt(env, start, s, calls, k)
  {
    hide Iterates, Respond, Serve, Oversized;
    AnswerOf(env, start, s, calls, k);
    ReplyOversized(env, start + k, Serve(env, start, s, calls[..k]).state, calls[k]);
  }

  /** A client reads the first n answers as they were meant exactly if none of them is oversized. */
  lemma StreamExact(env: Env, start: nat, s: State, calls: seq<Call>, n: nat)
    requires Iterates(env) && n <= |Serve(env, start, s, calls).answers| <= |calls|
    ensures var answers := Serve(env, start, s, calls).answers;
            FirstAnswers(AnswersBytes(answers), n) == Some(answers[..n])
            <==> forall k :: 0 <= k < n ==> !OversizedAt(env, start, s, calls, k)
  {
    hide Iterates, Serve, OversizedAt, FirstAnswers, AnswersBytes, Sendable;
    var answers := Serve(env, start, s, calls).answers;
    FirstExact(answers, n);
    forall k | 0 <= k < n
      ensures Sendable(answers[..n][k]) <==> !OversizedAt(env, start, s, calls, k)
    {
      AnswerSendable(env, start, s, calls, k);
    }
  }

  // ---------- one message ----------

  lemma OneMessage(b: bytes, m: Message)
    requires DecodeFetchResponse(b) == Some([m])
    ensures |b| == 26 + |m.key| + |m.value|
  {
    hide ReadMessage, Get32;
    var n := Get32(b[..4]);
    OneItem(b, n, m);
    ReadAdvances(b, 4);
  }

  lemma {:induction false} ItemsCount<T>(b: bytes, pos: nat, n: nat, read: Reader<T>)
    ensures ReadItems(b, pos, n, read).Some? ==> |ReadItems(b, pos, n, read).value| == n
    decreases n
  {
    if n > 0 && read(b, pos).Some? {
      ItemsCount(b, read(b, pos).value.1, n - 1, read);
    }
  }

  lemma OneItem(b: bytes, n: nat, m: Message)
    requires ReadItems(b, 4, n, ReadMessage) == Some([m])
    ensures ReadMessage(b, 4) == Some((m, |b|))
  {
    hide ReadMessage;
    ItemsCount(b, 4, n, ReadMessage);
    assert n == 1;
    var (x, next) := ReadMessage(b, 4).value;
    assert ReadItems(b, next, 0, ReadMessage).Some?;
    assert ([x] + [])[0] == x;
  }

  lemma ReadAdvances(b: bytes, pos: nat)
    ensures match ReadMessage(b, pos)
            case None => true
            case Some((m, next)) => next == pos + 22 + |m.key| + |m.value|
  {
    hide Get16, Get32, Get64;
  }

  /** What the client makes of answer j: it reads everything up to it and finds one message. */
  ghost predicate Receives(out: bytes, j: nat, id: uint32, m: Message) {
    match FirstAnswers(out, j + 1)
    case None => false
    case Some(seen) =>
      |seen| == j + 1 && seen[j].id == id && seen[j].code == 0
      && DecodeFetchResponse(seen[j].payload) == Some([m])
  }

  /** The client receives the message in answer j if it can read the stream up to there. */
  lemma ReceivesExact(env: Env, start: nat, s: State, calls: seq<Call>, j: nat, m: Message)
    requires Iterates(env) && j < |Serve(env, start, s, calls).answers| <= |calls|
    requires forall k :: 0 <= k < j ==> !OversizedAt(env, start, s, calls, k)
    requires var a := Serve(env, start, s, calls).answers[j];
             a.id == calls[j].id && a.code == 0 && DecodeFetchResponse(a.payload) == Some([m])
    ensures Receives(AnswersBytes(Serve(env, start, s, calls).answers), j, calls[j].id, m)
       <==> 32 + |m.key| + |m.value| < B32
  {
    hide Iterates, Serve, OversizedAt, FirstAnswers, AnswersBytes, AllSendable,
         DecodeFetchResponse;
    var answers := Serve(env, start, s, calls).answers;
    var out := AnswersBytes(answers);
    OneMessage(answers[j].payload, m);
    StreamExact(env, start, s, calls, j);
    StreamExact(env, start, s, calls, j + 1);
    AnswerSendable(env, start, s, calls, j);
    if Receives(out, j, calls[j].id, m) {
      var seen := FirstAnswers(out, j + 1).value;
      OneMessage(seen[j].payload, m);
      FirstLast(out, j);
      FirstExact(answers, j);
      WrappedBehind(answers, j, seen);
    }
  }

  /** Reading one answer more. */
  lemma {:induction false} FirstLast(b: bytes, n: nat)
    requires FirstAnswers(b, n + 1).Some?
    ensures FirstAnswers(b, n).Some? && |FirstAnswers(b, n + 1).value| == n + 1
    ensures FirstAnswers(b, n).value == FirstAnswers(b, n + 1).value[..n]
    decreases n
  {
    hide NextAnswer;
    if n > 0 {
      var (a, rest) := NextAnswer(b).value;
      FirstLast(rest, n - 1);
      var more := FirstAnswers(rest, n).value;
      assert ([a] + more)[..n] == [a] + more[..n - 1];
    }
  }

  /**
    On the bytes of a connection: a client whose produce was acknowledged, and whose requests
    so far have readable answers, receives the message in the answer to its fetch if and only
    if that answer is below 2^32 bytes.
   */
  lemma ClientFetchesItsMessage(env: Env, start: nat, s: State, calls: seq<Call>, seen: seq<Answer>,
                                i: nat, j: nat, sent: Request, p: int32, o: uint64)
    requires Iterates(env) && Small(s, start) && start + |calls| < B64
    requires forall k :: 0 <= k < |calls| ==> Framed(calls[k])
    requires i < j < |Serve(env, start, s, Calls(CallsBytes(calls))).answers| <= |calls|
    requires forall k :: 0 <= k < j ==> !OversizedAt(env, start, s, calls, k)
    requires FirstAnswers(AnswersBytes(Serve(env, start, s, Calls(CallsBytes(calls))).answers), j)
          == Some(seen) && |seen| == j
    requires sent.Produce? && Protocol.Encodable(sent) && |sent.topic| <= 65533
    requires calls[i].apiKey == 0 && calls[i].payload == Encode(sent)
    requires seen[i].code == 0 && DecodeProduceResponse(seen[i].payload) == Some((p, o))
    requires calls[j].apiKey == 1 && calls[j].payload == Encode(Request.Fetch(sent.topic, p, o, 1))
    ensures Receives(AnswersBytes(Serve(env, start, s, Calls(CallsBytes(calls))).answers), j, calls[j].id,
                     Message(o, env.clock(start + i), sent.key, sent.value))
       <==> 32 + |sent.key| + |sent.value| < B32
  {
    hide Iterates, Small, Serve, DecodeProduceRequest, DecodeFetchRequest, DecodeProduceResponse,
         DecodeFetchResponse, Encode, Calls, CallsBytes, AnswersBytes, FirstAnswers, OversizedAt, Receives;
    CallsRoundTrip(calls);
    DecodesEncoded(sent);
    DecodesEncoded(Request.Fetch(sent.topic, p, o, 1));
    StreamExact(env, start, s, calls, j);
    ProducedIsFetched(env, start, s, calls, i, j, sent, p, o);
    ReceivesExact(env, start, s, calls, j, Message(o, env.clock(start + i), sent.key, sent.value));
  }

  // ---------- an acknowledged message that cannot be fetched ----------

  function LargeProduce(topic: bytes): Request
    requires |topic| == 1
  {
    Produce(topic, 0, [], Zeros(B32 - 20))
  }

  lemma LargeFits(topic: bytes, id: uint32)
    requires |topic| == 1
    ensures var r := LargeProduce(topic);
            && Protocol.Encodable(r) && Framed(Call(0, id, Encode(r))) && Fits(r.key, r.value)
            && DecodeProduceRequest(Encode(r)) == Parsed(r)
  {
    hide Zeros, Encode, DecodeProduceRequest;
    var r := LargeProduce(topic);
    EncodedFront(r);
    DecodesEncoded(r);
  }

  lemma FetchFramed(topic: bytes, id: uint32, p: int32, o: uint64)
    requires |topic| == 1
    ensures var r := Request.Fetch(topic, p, o, 1);
            && Framed(Call(1, id, Encode(r))) && DecodeFetchRequest(Encode(r)) == Parsed(r)
  {
    hide DecodeFetchRequest;
    DecodesEncoded(Request.Fetch(topic, p, o, 1));
  }

  lemma KeylessTarget(env: Env, i: nat, s: State, sent: Request)
    requires CountersBelow(s, 2) && Small(s, i) && sent.Produce? && sent.key == []
    requires HasPartitions(s, sent.topic)
    ensures Takes(env, s, sent)
    ensures var p := Target(env, s, sent);
            0 <= p < |s.topics[sent.topic].logs| < 0x8000_0000 && |s.topics[sent.topic].logs[p]| <= i
  {
    var t := s.topics[sent.topic];
    SmallCounter(env.hash, |t.logs|, t.counter);
  }

  lemma NotDeadly(s: State, calls: seq<Call>, k: nat)
    requires k < |calls|
    requires (calls[k].apiKey == 0 && DecodeProduceRequest(calls[k].payload).Parsed?
              && DecodeProduceRequest(calls[k].payload).value.Produce?
              && DecodeProduceRequest(calls[k].payload).value.key == [])
          || (calls[k].apiKey == 1 && DecodeFetchRequest(calls[k].payload).Parsed?)
    ensures !Deadly(s, calls, k)
  {
    hide DecodeProduceRequest, DecodeFetchRequest, Crashes, PartitionsOf;
    ProduceCrashes(calls[k].payload);
    FetchCrashes(calls[k].payload);
  }

  /**
    A message of 2^32 - 20 bytes to a topic with a name of one byte, in a well-formed frame: it
    is stored and acknowledged, and its fetch is answered, but the client cannot receive it.
   */
  lemma LargeMessageLost(env: Env, start: nat, s: State, topic: bytes, id: uint32, id': uint32)
    requires Iterates(env) && Small(s, start) && start + 2 < B64 && CountersBelow(s, 2)
    requires |topic| == 1 && HasPartitions(s, topic)
    ensures var sent := LargeProduce(topic);
            var p := Target(env, s, sent);
            && 0 <= p < |s.topics[topic].logs| < 0x8000_0000 && |s.topics[topic].logs[p]| < B64
            && var o := |s.topics[topic].logs[p]|;
               var calls := [Call(0, id, Encode(sent)),
                             Call(1, id', Encode(Request.Fetch(topic, p, o, 1)))];
               var answers := Serve(env, start, s, calls).answers;
               && Framed(calls[0]) && Framed(calls[1]) && Fits(sent.key, sent.value)
               && |answers| == 2 && answers[0].code == 0 && answers[1].code == 0
               && DecodeFetchResponse(answers[1].payload)
                  == Some([Message(o, env.clock(start), sent.key, sent.value)])
               && !Receives(AnswersBytes(answers), 1, id',
                            Message(o, env.clock(start), sent.key, sent.value))
  {
    hide Iterates, Zeros, Encode, DecodeProduceRequest, DecodeFetchRequest, DecodeProduceResponse,
         DecodeFetchResponse, Serve, Receives, OnProduce, Present, AnswersBytes, FirstAnswers, Small,
         CountersBelow, Deadly, Target, Takes, Oversized;
    var sent := LargeProduce(topic);
    LargeFits(topic, id);
    KeylessTarget(env, start, s, sent);
    var p := Target(env, s, sent);
    var o := |s.topics[topic].logs[p]|;
    FetchFramed(topic, id', p, o);
    var calls := [Call(0, id, Encode(sent)), Call(1, id', Encode(Request.Fetch(topic, p, o, 1)))];
    NotDeadly(s, calls, 0);
    NotDeadly(s, calls, 1);
    AllAnswered(env, start, s, calls);
    AnswerOf(env, start, s, calls, 0);
    assert calls[..0] == [];
    NothingServed(env, start, s, calls);
    Acknowledged(env, start, s, calls[0].payload, sent);
    ProducedIsFetched(env, start, s, calls, 0, 1, sent, p, o);
    ProduceNotOversized(env, start, s, calls[0]);
    ReceivesExact(env, start, s, calls, 1, Message(o, env.clock(start), sent.key, sent.value));
  }

  lemma ProduceNotOversized(env: Env, i: nat, s: State, c: Call)
    requires Iterates(env) && c.apiKey == 0
    ensures !Oversized(env, i, s, c)
  {
  }

  // ---------- pages of any size ----------

  /** Messages whose lengths the fields of a fetch response can hold. */
  ghost predicate LogFits(log: Messages) {
    forall o :: 0 <= o < |log| ==> |log[o].key| < B16 && |log[o].value| < B32
  }

  ghost predicate AllFit(s: State) {
    forall n, p :: n in s.topics && 0 <= p < |s.topics[n].logs| ==> LogFits(s.topics[n].logs[p])
  }

  lemma ProduceFits(t: TopicState, hash: Hash, m: Produced)
    requires |m.key| < B16 && |m.value| < B32
    requires forall p :: 0 <= p < |t.logs| ==> LogFits(t.logs[p])
    ensures var after := ProduceNext(t, hash, m);
            forall p :: 0 <= p < |after.logs| ==> LogFits(after.logs[p])
  {
    hide Route;
  }

  lemma NewFits(n: int64)
    ensures forall p :: 0 <= p < |NewTopic(n).logs| ==> LogFits(NewTopic(n).logs[p])
  {
  }

  lemma RespondFits(env: Env, i: nat, s: State, c: Call)
    requires Iterates(env) && AllFit(s) && Framed(c)
    ensures AllFit(Respond(env, i, s, c).0)
  {
    hide Iterates, OnFetch, OnListTopics, OnFetchOffset, OnCommitOffset, ProduceNext, ProduceReply,
         DecodeProduceRequest, DecodeCreateTopicRequest, NewTopic, LogFits;
    DecodedKinds(c.payload);
    FrameFits(c.payload);
    CommitKeepsTopics(env, i, s, c.payload);
    if c.apiKey == 0 && DecodeProduceRequest(c.payload).Parsed? {
      var r := DecodeProduceRequest(c.payload).value;
      if r.topic in s.topics {
        ProduceFits(s.topics[r.topic], env.hash, Produced.Produced(env.clock(i), r.key, r.value));
      }
    } else if c.apiKey == 2 && DecodeCreateTopicRequest(c.payload).Parsed? {
      NewFits(DecodeCreateTopicRequest(c.payload).value.numPartitions);
    }
  }

  lemma {:induction false} ServeFits(env: Env, start: nat, s: State, calls: seq<Call>)
    requires Iterates(env) && AllFit(s) && forall k :: 0 <= k < |calls| ==> Framed(calls[k])
    ensures AllFit(Serve(env, start, s, calls).state)
  {
    hide Iterates, Respond, AllFit, Framed;
    if calls != [] {
      var last := |calls| - 1;
      ServeFits(env, start, s, calls[..last]);
      RespondFits(env, start + last, Serve(env, start, s, calls[..last]).state, calls[last]);
    }
  }

  /**
    Every fetch of an existing partition is answered with exactly the messages from its offset
    on, at most as many as it asks for; every other one with an error.
   */
  lemma FetchAnswers(s: State, i: nat, payload: bytes, topic: bytes, p: int32, o: uint64, n: uint32)
    requires AllFit(s) && Small(s, i) && i < B64
    requires DecodeFetchRequest(payload) == Parsed(Request.Fetch(topic, p, o, n))
    ensures var reply := OnFetch(s, payload);
            if topic in s.topics && 0 <= p < |s.topics[topic].logs|
            then reply.Replied? && reply.code == 0
                 && DecodeFetchResponse(reply.payload)
                    == Some(LogSpec.Fetch(s.topics[topic].logs[p], 0, o, n))
            else reply == Replied(1, [])
  {
    hide DecodeFetchRequest, DecodeFetchResponse, FetchBytes;
    if topic in s.topics && 0 <= p < |s.topics[topic].logs| {
      PageFits(s.topics[topic].logs[p], o, n);
    }
  }

  lemma PageFits(log: Messages, o: nat, n: nat)
    requires LogFits(log) && |log| < B64 && n < B32
    ensures var ms := LogSpec.Fetch(log, 0, o, n);
            DecodeFetchResponse(FetchBytes(ms)) == Some(ms)
  {
    hide DecodeFetchResponse, FetchBytes, Slice;
    var w := Window(|log|, 0, o, n);
    var ms := LogSpec.Fetch(log, 0, o, n);
    forall k | 0 <= k < |ms|
      ensures Measured(ms[k])
    {
      LogSpec.SliceAt(log, 0, w.0, w.1, k);
    }
    FetchRoundTrip(ms);
  }
}
