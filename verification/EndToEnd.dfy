/**
  What a client can rely on across a whole session: what a produce was acknowledged for is
  what a fetch of that partition and offset returns. API keys and error codes are the numbers
  on the wire.
 */
module EndToEnd {
  import opened Bytes
  import opened Record
  import opened Segments
  import opened LogSpec
  import opened TopicSpec
  import opened Topics
  import opened Protocol
  import opened Responses
  import opened Wire
  import opened Decimal
  import opened Places
  import opened Restart
  import opened Paths
  import opened BrokerSpec
  import opened Answering

  // ---------- sessions ----------

  /** Answer k is the reply to request k in the state behind the requests before it. */
  lemma {:induction false} AnswerOf(env: Env, start: nat, s: State, calls: seq<Call>, k: nat)
    requires Iterates(env) && k < |calls| && k < |Serve(env, start, s, calls).answers|
    ensures var a := Serve(env, start, s, calls).answers[k];
            var before := Serve(env, start, s, calls[..k]);
            var (s', reply) := Respond(env, start + k, before.state, calls[k]);
            && a.id == calls[k].id && reply == Replied(a.code, a.payload)
            && Serve(env, start, s, calls[..k + 1]).state == s'
  {
    hide Respond, Iterates, Serve;
    var last := |calls| - 1;
    var q := calls[..last];
    ServeLast(env, start, s, calls);
    OneAnswerEach(env, start, s, q);
    if k < last {
      assert q[..k] == calls[..k] && q[..k + 1] == calls[..k + 1];
      AnswerOf(env, start, s, q, k);
    } else {
      assert calls[..k + 1] == calls;
    }
  }

  lemma {:induction false} GrowsBehind(env: Env, start: nat, s: State, calls: seq<Call>, n: nat)
    requires Iterates(env) && Small(s, start) && n <= |calls|
    ensures Grows(Serve(env, start, s, calls[..n]).state, Serve(env, start, s, calls).state)
  {
    hide Respond, Iterates, Small, Grows;
    if n == |calls| {
      assert calls[..n] == calls;
      GrowsSelf(Serve(env, start, s, calls).state);
    } else {
      var last := |calls| - 1;
      var q := calls[..last];
      var before := Serve(env, start, s, q);
      assert q[..n] == calls[..n];
      GrowsBehind(env, start, s, q, n);
      if !before.crashed {
        ServeGrows(env, start, s, q);
        RespondGrows(env, start + last, before.state, calls[last]);
        GrowsOn(Serve(env, start, s, q[..n]).state, before.state,
                Respond(env, start + last, before.state, calls[last]).0);
      }
    }
  }

  // ---------- one produce ----------

  /** A produce request in a frame is within the record format's size. */
  lemma FrameFits(p: bytes)
    requires 6 + |p| < B32
    ensures var d := DecodeProduceRequest(p);
            d.Parsed? ==> d.value.Produce? && |d.value.key| < B16 && Fits(d.value.key, d.value.value)
  {
    hide Get16, Get32, DecodeName;
  }

  /** The message is in the state where the acknowledgement says. */
  ghost predicate Present(s: State, topic: bytes, p: int, o: nat, r: Rec) {
    && topic in s.topics && 0 <= p < |s.topics[topic].logs|
    && o < |s.topics[topic].logs[p]| && s.topics[topic].logs[p][o] == r
  }

  lemma PresentOn(s: State, t: State, topic: bytes, p: int, o: nat, r: Rec)
    requires Present(s, topic, p, o, r) && Grows(s, t)
    ensures Present(t, topic, p, o, r)
  {
    assert LogsGrow(s.topics[topic].logs, t.topics[topic].logs);
  }

  /** A produce that the broker can store. */
  predicate Takes(env: Env, s: State, sent: Request) {
    && sent.Produce? && |sent.key| <= 65517
    && sent.topic in s.topics && s.topics[sent.topic].logs != []
    && Target(env, s, sent) >= 0
  }

  /** The partition index of a produce. */
  function Target(env: Env, s: State, sent: Request): int
    requires sent.Produce? && sent.topic in s.topics && s.topics[sent.topic].logs != []
  {
    var t := s.topics[sent.topic];
    Route(env.hash, |t.logs|, t.counter, sent.key)
  }

  /**
    Exactly these produces are answered without an error, and the answer says where the
    message is from then on: at the end of its partition's log.
   */
  lemma Acknowledged(env: Env, i: nat, s: State, payload: bytes, sent: Request)
    requires Small(s, i) && i < B64 && DecodeProduceRequest(payload) == Parsed(sent)
    ensures var reply := OnProduce(env, i, s, payload).1;
            reply.Replied? && reply.code == 0 <==> Takes(env, s, sent)
    ensures Takes(env, s, sent)
        ==> var (s', reply) := OnProduce(env, i, s, payload);
            var p := Target(env, s, sent);
            var o := |s.topics[sent.topic].logs[p]|;
            && DecodeProduceResponse(reply.payload) == Some((p, o))
            && Present(s', sent.topic, p, o, Rec(env.clock(i), sent.key, sent.value))
  {
    hide DecodeProduceRequest, DecodeProduceResponse, Target, ProducePayload, ProduceNext, ProduceReply,
         Present, Small, Takes;
    DecodedKinds(payload);
    ShortKey(payload);
    if sent.topic in s.topics {
      Replies(env, s, sent, env.clock(i));
    }
    TakesTopic(env, s, sent);
    if Takes(env, s, sent) {
      var p := Target(env, s, sent);
      var o := |s.topics[sent.topic].logs[p]|;
      SmallLogs(s, i, sent.topic, p);
      ProducePayloadRead(p, o);
      Stores(env, s, sent, env.clock(i));
    }
  }

  lemma TakesTopic(env: Env, s: State, sent: Request)
    ensures Takes(env, s, sent)
        ==> sent.Produce? && sent.topic in s.topics && s.topics[sent.topic].logs != []
            && 0 <= Target(env, s, sent) < |s.topics[sent.topic].logs|
  {
    hide Route;
  }

  /** Which produces the topic accepts. */
  lemma Replies(env: Env, s: State, sent: Request, clock: int64)
    requires sent.Produce? && |sent.key| < B16 && sent.topic in s.topics
    ensures var r := ProduceReply(s.topics[sent.topic], env.hash,
                                  TopicSpec.Produced.Produced(clock, sent.key, sent.value));
            && (r.Ok? <==> Takes(env, s, sent))
            && (r.Ok? ==> r.value == (Target(env, s, sent),
                                      |s.topics[sent.topic].logs[Target(env, s, sent)]|))
  {
    hide Route;
  }

  lemma SmallLogs(s: State, i: nat, topic: bytes, p: nat)
    requires Small(s, i) && topic in s.topics && p < |s.topics[topic].logs|
    ensures |s.topics[topic].logs| < 0x8000_0000 && |s.topics[topic].logs[p]| <= i
  {
  }

  /** A produce puts its message at the end of its partition. */
  lemma Stores(env: Env, s: State, sent: Request, clock: int64)
    requires Takes(env, s, sent)
    ensures var p := Target(env, s, sent);
            var t := ProduceNext(s.topics[sent.topic], env.hash,
                                 TopicSpec.Produced.Produced(clock, sent.key, sent.value));
            Present(s.(topics := s.topics[sent.topic := t]), sent.topic, p,
                    |s.topics[sent.topic].logs[p]|, Rec(clock, sent.key, sent.value))
  {
    hide Route;
    ProduceAppends(s.topics[sent.topic], env.hash,
                   TopicSpec.Produced.Produced(clock, sent.key, sent.value), Target(env, s, sent));
    assert AsStored(clock, sent.key, sent.value).key == sent.key;
  }

  lemma ProducePayloadRead(p: int, o: nat)
    requires 0 <= p < 0x8000_0000 && o < B64
    ensures DecodeProduceResponse(ProducePayload(p, o)) == Some((p, o))
  {
    hide DecodeProduceResponse, Put32, Put64, Signed32, Unsigned32;
    SmallInt(p);
    ProduceResponseRoundTrip(p, o);
  }

  lemma SmallInt(q: int)
    requires 0 <= q < 0x8000_0000
    ensures Signed32(q % B32) == q
  {
  }

  // ---------- one fetch ----------

  /** A fetch of one message at the offset of a stored one returns that message. */
  lemma FetchDelivers(s: State, payload: bytes, topic: bytes, p: int32, o: uint64, r: Rec)
    requires DecodeFetchRequest(payload) == Parsed(Request.Fetch(topic, p, o, 1))
    requires Present(s, topic, p, o, r) && |r.key| < B16 && |r.value| < B32
    ensures OnFetch(s, payload).Replied? && OnFetch(s, payload).code == 0
    ensures DecodeFetchResponse(OnFetch(s, payload).payload) == Some([Tagged(o, r)])
  {
    hide DecodeFetchRequest, DecodeFetchResponse, FetchBytes;
    var log := s.topics[topic].logs[p];
    assert LogSpec.Fetch(log, 0, o, 1) == [Tagged(o, r)];
    FetchRoundTrip([Tagged(o, r)]);
  }

  // ---------- the session ----------

  /** An acknowledged produce is in the state behind its request. */
  lemma SessionStores(env: Env, start: nat, s: State, calls: seq<Call>, i: nat, sent: Request,
                      p: int32, o: uint64)
    requires Iterates(env) && Small(s, start) && start + |calls| < B64
    requires var answers := Serve(env, start, s, calls).answers;
             && i < |answers| && i < |calls|
             && calls[i].apiKey == 0 && DecodeProduceRequest(calls[i].payload) == Parsed(sent)
             && answers[i].code == 0 && DecodeProduceResponse(answers[i].payload) == Some((p, o))
    ensures sent.Produce?
    ensures Present(Serve(env, start, s, calls[..i + 1]).state, sent.topic, p, o,
                    Rec(env.clock(start + i), sent.key, sent.value))
  {
    hide Iterates, Small, Grows, Serve, OnProduce, OnFetch, DecodeProduceRequest, DecodeProduceResponse,
         Present, Takes, Target;
    AnswerOf(env, start, s, calls, i);
    ServeGrows(env, start, s, calls[..i]);
    var before := Serve(env, start, s, calls[..i]).state;
    Acknowledged(env, start + i, before, calls[i].payload, sent);
    DecodedKinds(calls[i].payload);
  }

  /** In any session, whatever comes before it, a fetch of a stored message returns it. */
  lemma SessionFetches(env: Env, start: nat, s: State, calls: seq<Call>, j: nat, n: nat, topic: bytes,
                       p: int32, o: uint64, r: Rec)
    requires Iterates(env) && Small(s, start)
    requires j < |calls| && j < |Serve(env, start, s, calls).answers| && n <= j
    requires Present(Serve(env, start, s, calls[..n]).state, topic, p, o, r)
    requires |r.key| < B16 && |r.value| < B32
    requires calls[j].apiKey == 1
             && DecodeFetchRequest(calls[j].payload) == Parsed(Request.Fetch(topic, p, o, 1))
    ensures var answer := Serve(env, start, s, calls).answers[j];
            && answer.id == calls[j].id && answer.code == 0
            && DecodeFetchResponse(answer.payload) == Some([Tagged(o, r)])
  {
    hide Iterates, Small, Grows, Serve, OnProduce, OnFetch, DecodeFetchRequest, DecodeFetchResponse,
         Present;
    AnswerOf(env, start, s, calls, j);
    var later := Serve(env, start, s, calls[..j]).state;
    assert calls[..j][..n] == calls[..n];
    GrowsBehind(env, start, s, calls[..j], n);
    PresentOn(Serve(env, start, s, calls[..n]).state, later, topic, p, o, r);
    FetchDelivers(later, calls[j].payload, topic, p, o, r);
  }

  /**
    In any session, with any requests before, between and behind: the fetch of a topic's
    partition and offset that an earlier produce was answered with is answered with exactly
    the key and value of that produce.
   */
  lemma ProducedIsFetched(env: Env, start: nat, s: State, calls: seq<Call>, i: nat, j: nat,
                          sent: Request, p: int32, o: uint64)
    requires Iterates(env) && Small(s, start) && start + |calls| < B64
    requires var answers := Serve(env, start, s, calls).answers;
             && i < j < |answers| && |answers| <= |calls|
             && calls[i].apiKey == 0 && 6 + |calls[i].payload| < B32
             && sent.Produce? && DecodeProduceRequest(calls[i].payload) == Parsed(sent)
             && answers[i].code == 0 && DecodeProduceResponse(answers[i].payload) == Some((p, o))
             && calls[j].apiKey == 1
             && DecodeFetchRequest(calls[j].payload) == Parsed(Request.Fetch(sent.topic, p, o, 1))
    ensures var answer := Serve(env, start, s, calls).answers[j];
            && answer.id == calls[j].id && answer.code == 0
            && DecodeFetchResponse(answer.payload)
               == Some([Message(o, env.clock(start + i), sent.key, sent.value)])
  {
    hide Iterates, Small, Serve, DecodeProduceRequest, DecodeFetchRequest, DecodeProduceResponse,
         DecodeFetchResponse, Present;
    FrameFits(calls[i].payload);
    SessionStores(env, start, s, calls, i, sent, p, o);
    SessionFetches(env, start, s, calls, j, i + 1, sent.topic, p, o,
                   Rec(env.clock(start + i), sent.key, sent.value));
  }

  /** A restart moves a message with its partition. */
  lemma PresentRestarted(s: State, topic: bytes, p: nat, o: nat, r: Rec)
    requires Present(s, topic, p, o, r) && AllPlaced(s) && Visible(topic)
    ensures p < |s.topics[topic].ids|
    ensures Present(RestartState(s), topic, NewPlace(s.topics[topic], p), o, r)
  {
    hide NewPlace, Numbered, Reloaded, VisibleOf;
    VisibleIn(s.topics.Keys, topic);
    ReloadPermutes(s.topics[topic]);
  }

  /** Up to ten partitions stay where they are. */
  lemma FewPlaces(t: TopicState, p: nat)
    requires Placed(t) && p < |t.ids| <= 10
    ensures NewPlace(t, p) == p
  {
    hide Numbered, SortedIds, Reloaded;
    NamesDiffer(t.ids);
    FewStay(t);
    assert SortedIds(t.ids) == t.ids;
    assert t.ids[p] in t.ids;
  }

  /**
    The same across a restart of the broker: what one session acknowledged is what a later
    session fetches, from the position at which the partition has come back. That is its old
    position in a topic of at most ten partitions.
   */
  lemma ProducedSurvives(env: Env, start: nat, s: State, calls: seq<Call>, i: nat, sent: Request,
                         p: int32, o: uint64,
                         env': Env, start': nat, calls': seq<Call>, j: nat, p': int32)
    requires Iterates(env) && Small(s, start) && AllPlaced(s) && Iterates(env')
    requires start + |calls| <= start' && start' + |calls'| < B64
    requires var answers := Serve(env, start, s, calls).answers;
             && i < |answers| && i < |calls|
             && calls[i].apiKey == 0 && 6 + |calls[i].payload| < B32
             && sent.Produce? && DecodeProduceRequest(calls[i].payload) == Parsed(sent)
             && answers[i].code == 0 && DecodeProduceResponse(answers[i].payload) == Some((p, o))
    requires var done := Serve(env, start, s, calls).state;
             && (sent.topic == [] || sent.topic[0] != 0x2E)
             && j < |calls'| && j < |Serve(env', start', RestartState(done), calls').answers|
             && (sent.topic in done.topics && 0 <= p < |done.topics[sent.topic].ids|
                 ==> p' == NewPlace(done.topics[sent.topic], p))
    requires calls'[j].apiKey == 1
             && DecodeFetchRequest(calls'[j].payload) == Parsed(Request.Fetch(sent.topic, p', o, 1))
    ensures var done := Serve(env, start, s, calls).state;
            var answer := Serve(env', start', RestartState(done), calls').answers[j];
            && answer.id == calls'[j].id && answer.code == 0
            && DecodeFetchResponse(answer.payload)
               == Some([Message(o, env.clock(start + i), sent.key, sent.value)])
            && sent.topic in done.topics && (|done.topics[sent.topic].logs| <= 10 ==> p' == p)
  {
    hide Iterates, Small, Serve, Grows, AllPlaced, RestartState, DecodeProduceRequest, DecodeFetchRequest,
         DecodeProduceResponse, DecodeFetchResponse, Present, NewPlace, Visible;
    var done := Serve(env, start, s, calls).state;
    var r := Rec(env.clock(start + i), sent.key, sent.value);
    FrameFits(calls[i].payload);
    SessionStores(env, start, s, calls, i, sent, p, o);
    GrowsBehind(env, start, s, calls, i + 1);
    PresentOn(Serve(env, start, s, calls[..i + 1]).state, done, sent.topic, p, o, r);
    ServePlaced(env, start, s, calls);
    PresentIn(done, sent.topic, p, o, r);
    PresentRestarted(done, sent.topic, p, o, r);
    ServeGrows(env, start, s, calls);
    RestartSmall(done, start + |calls|);
    SmallFrom(RestartState(done), start + |calls|, start');
    NothingServed(env', start', RestartState(done), calls');
    SessionFetches(env', start', RestartState(done), calls', j, 0, sent.topic, p', o, r);
    PlacedAt(done, sent.topic);
    if |done.topics[sent.topic].logs| <= 10 {
      FewPlaces(done.topics[sent.topic], p);
    }
  }

  lemma PresentIn(s: State, topic: bytes, p: int, o: nat, r: Rec)
    requires Present(s, topic, p, o, r)
    ensures topic in s.topics && 0 <= p < |s.topics[topic].logs|
  {
  }

  lemma PlacedAt(s: State, topic: bytes)
    requires AllPlaced(s) && topic in s.topics
    ensures Placed(s.topics[topic])
  {
  }

  lemma SmallFrom(s: State, i: nat, j: nat)
    requires Small(s, i) && i <= j
    ensures Small(s, j)
  {
  }

  lemma NothingServed(env: Env, start: nat, s: State, calls: seq<Call>)
    requires Iterates(env)
    ensures Serve(env, start, s, calls[..0]).state == s
  {
    hide Respond, Iterates;
  }

  // ---------- consumer offsets ----------

  /** The offset of the last commit for a key among these requests. */
  function LastCommit(calls: seq<Call>, g: bytes, t: bytes, p: int32): Option<uint64> {
    if calls == [] then None
    else
      var last := calls[|calls| - 1];
      var d := DecodeCommitOffsetRequest(last.payload);
      if last.apiKey == 4 && d.Parsed? && d.value == CommitOffset(g, t, p, d.value.offset)
      then Some(d.value.offset)
      else LastCommit(calls[..|calls| - 1], g, t, p)
  }

  function OrElse<T>(a: Option<T>, b: Option<T>): Option<T> { if a.Some? then a else b }

  lemma CommitLookup(env: Env, i: nat, s: State, payload: bytes, g: bytes, t: bytes, p: int32)
    ensures var d := DecodeCommitOffsetRequest(payload);
            GroupSpec.Lookup(OnCommitOffset(env, i, s, payload).0.groups.memory, g, t, p)
            == if d.Parsed? && d.value == CommitOffset(g, t, p, d.value.offset) then Some(d.value.offset)
               else GroupSpec.Lookup(s.groups.memory, g, t, p)
  {
    hide DecodeCommitOffsetRequest, GroupSpec.Lookup, GroupSpec.With;
    DecodedKinds(payload);
    var d := DecodeCommitOffsetRequest(payload);
    if d.Parsed? {
      GroupSpec.LookupWith(s.groups.memory, d.value.group, d.value.topic, d.value.partition,
                           d.value.offset, g, t, p);
    }
  }

  lemma RespondLookup(env: Env, i: nat, s: State, c: Call, g: bytes, t: bytes, p: int32)
    requires Iterates(env)
    ensures GroupSpec.Lookup(Respond(env, i, s, c).0.groups.memory, g, t, p)
         == OrElse(LastCommit([c], g, t, p), GroupSpec.Lookup(s.groups.memory, g, t, p))
  {
    hide DecodeCommitOffsetRequest, OnCommitOffset, Iterates, OnFetch, OnListTopics, OnFetchOffset,
         GroupSpec.Lookup;
    CommitLookup(env, i, s, c.payload, g, t, p);
    assert [c][..0] == [];
    OthersKeepGroups(env, i, s, c.payload);
  }

  lemma OthersKeepGroups(env: Env, i: nat, s: State, p: bytes)
    ensures OnProduce(env, i, s, p).0.groups == s.groups == OnCreateTopic(s, p).0.groups
  {
  }

  /** In a session, memory holds the last committed offsets, even if the write failed. */
  lemma {:induction false} SessionLookup(env: Env, start: nat, s: State, calls: seq<Call>,
                                         g: bytes, t: bytes, p: int32)
    requires Iterates(env) && !Serve(env, start, s, calls).crashed
    ensures GroupSpec.Lookup(Serve(env, start, s, calls).state.groups.memory, g, t, p)
         == OrElse(LastCommit(calls, g, t, p), GroupSpec.Lookup(s.groups.memory, g, t, p))
  {
    hide Respond, Iterates, GroupSpec.Lookup, DecodeCommitOffsetRequest;
    if calls != [] {
      var last := |calls| - 1;
      var before := Serve(env, start, s, calls[..last]);
      SessionLookup(env, start, s, calls[..last], g, t, p);
      RespondLookup(env, start + last, before.state, calls[last], g, t, p);
      assert [calls[last]][..0] == [];
    }
  }

  /** Every offset fetch of a session is answered with the latest commit for its key. */
  lemma CommittedIsFetched(env: Env, start: nat, s: State, calls: seq<Call>, j: nat,
                           g: bytes, t: bytes, p: int32)
    requires Iterates(env) && j < |calls| && j < |Serve(env, start, s, calls).answers|
    requires calls[j].apiKey == 5
             && DecodeFetchOffsetRequest(calls[j].payload) == Parsed(FetchOffset(g, t, p))
    ensures var answer := Serve(env, start, s, calls).answers[j];
            && answer.id == calls[j].id && answer.code == 0
            && answer.payload
               == match OrElse(LastCommit(calls[..j], g, t, p), GroupSpec.Lookup(s.groups.memory, g, t, p))
                  case Some(o) => OffsetBytes(o, true)
                  case None => OffsetBytes(0, false)
  {
    hide Iterates, Serve, DecodeFetchOffsetRequest, GroupSpec.Lookup, OffsetBytes, OnProduce, OnFetch,
         OnCreateTopic, OnCommitOffset, OnListTopics, LastCommit;
    AnswerOf(env, start, s, calls, j);
    NotCrashedBefore(env, start, s, calls, j);
    SessionLookup(env, start, s, calls[..j], g, t, p);
  }

  lemma NotCrashedBefore(env: Env, start: nat, s: State, calls: seq<Call>, k: nat)
    requires Iterates(env) && k < |calls| && k < |Serve(env, start, s, calls).answers|
    ensures !Serve(env, start, s, calls[..k]).crashed
  {
    hide Respond, Iterates;
    if Serve(env, start, s, calls[..k]).crashed {
      CrashStays(env, start, s, calls, k);
      OneAnswerEach(env, start, s, calls[..k]);
    }
  }

  /** Group ids without a separator, in these groups. */
  predicate OneParts(groups: map<bytes, GroupSpec.Offsets>) {
    forall g :: g in groups ==> OnePart(g)
  }

  predicate CommitsOnePart(c: Call) {
    var d := DecodeCommitOffsetRequest(c.payload);
    c.apiKey == 4 && d.Parsed? && d.value.CommitOffset? ==> OnePart(d.value.group)
  }

  /**
    Without write errors, and with group ids that have no separator, memory and disk agree, so
    a restart loses no commit either.
   */
  lemma {:induction false} NoFaultsAgree(env: Env, start: nat, s: State, calls: seq<Call>)
    requires Iterates(env) && s.groups.memory == s.groups.disk && OneParts(s.groups.memory)
    requires forall i :: start <= i < start + |calls| ==> env.fault(i) == GroupSpec.NoFault
    requires forall i :: 0 <= i < |calls| ==> CommitsOnePart(calls[i])
    ensures var done := Serve(env, start, s, calls).state;
            && done.groups.memory == done.groups.disk && OneParts(done.groups.memory)
            && GroupSpec.Reopened(done.groups) == done.groups
  {
    hide Respond, Iterates, CommitsOnePart;
    if calls != [] {
      var last := |calls| - 1;
      NoFaultsAgree(env, start, s, calls[..last]);
      RespondAgrees(env, start + last, Serve(env, start, s, calls[..last]).state, calls[last]);
    }
  }

  lemma RespondAgrees(env: Env, i: nat, s: State, c: Call)
    requires Iterates(env) && s.groups.memory == s.groups.disk && env.fault(i) == GroupSpec.NoFault
    requires OneParts(s.groups.memory) && CommitsOnePart(c)
    ensures var t := Respond(env, i, s, c).0;
            t.groups.memory == t.groups.disk && OneParts(t.groups.memory)
  {
    hide DecodeCommitOffsetRequest, Iterates, OnFetch, OnListTopics, OnFetchOffset, OnProduce,
         OnCreateTopic, GroupSpec.Step, OneParts;
    OthersKeepGroups(env, i, s, c.payload);
    DecodedKinds(c.payload);
    var d := DecodeCommitOffsetRequest(c.payload);
    if c.apiKey == 4 && d.Parsed? {
      StepAgrees(env.home, s.groups, d.value.group, d.value.topic, d.value.partition, d.value.offset);
    }
  }

  lemma StepAgrees(home: Path, s: GroupSpec.State, g: bytes, t: bytes, p: int64, o: uint64)
    requires s.memory == s.disk && OneParts(s.memory) && OnePart(g)
    ensures var after := GroupSpec.Step(home, s, GroupSpec.Commit(g, t, p, o, GroupSpec.NoFault));
            after.memory == after.disk && OneParts(after.memory)
  {
    hide FileOf, OnePart, GroupSpec.With;
    OwnFile(home, g);
    forall h | h in s.disk && h != g
      ensures h in GroupSpec.Elsewhere(home, s.disk, g)
    {
      if FileOf(home, h) == FileOf(home, g) {
        OwnFiles(home, h, g);
      }
    }
  }

  // ---------- routing ----------

  /** What a session produces to one topic, in order. */
  function ProducedTo(env: Env, start: nat, calls: seq<Call>, topic: bytes): seq<Produced> {
    if calls == [] then []
    else
      var last := |calls| - 1;
      var d := DecodeProduceRequest(calls[last].payload);
      ProducedTo(env, start, calls[..last], topic)
        + if calls[last].apiKey == 0 && d.Parsed? && d.value.Produce? && d.value.topic == topic
          then [TopicSpec.Produced.Produced(env.clock(start + last), d.value.key, d.value.value)] else []
  }

  lemma AfterSnoc(hash: Hash, n: nat, ms: seq<Produced>, m: Produced)
    ensures After(hash, n, ms + [m]) == ProduceNext(After(hash, n, ms), hash, m)
  {
    assert (ms + [m])[..|ms|] == ms;
  }

  lemma RespondRoutes(env: Env, i: nat, s: State, c: Call, topic: bytes)
    requires Iterates(env) && topic in s.topics
    ensures var d := DecodeProduceRequest(c.payload);
            && topic in Respond(env, i, s, c).0.topics
            && Respond(env, i, s, c).0.topics[topic]
               == if c.apiKey == 0 && d.Parsed? && d.value.Produce? && d.value.topic == topic
                  then ProduceNext(s.topics[topic], env.hash,
                                   TopicSpec.Produced.Produced(env.clock(i), d.value.key, d.value.value))
                  else s.topics[topic]
  {
    hide DecodeProduceRequest, OnCommitOffset, Iterates, OnFetch, OnListTopics, OnFetchOffset,
         ProduceNext, ProduceReply, DecodeCreateTopicRequest;
    DecodedKinds(c.payload);
    CommitKeepsTopics(env, i, s, c.payload);
  }

  /** A session takes each topic where the routing function takes its produces. */
  lemma {:induction false} SessionRoutes(env: Env, start: nat, s: State, calls: seq<Call>, topic: bytes,
                                         n: nat, ms: seq<Produced>)
    requires Iterates(env) && !Serve(env, start, s, calls).crashed
    requires topic in s.topics && s.topics[topic] == After(env.hash, n, ms)
    ensures var t := Serve(env, start, s, calls).state.topics;
            topic in t && t[topic] == After(env.hash, n, ms + ProducedTo(env, start, calls, topic))
  {
    hide Respond, Iterates, After, DecodeProduceRequest;
    if calls == [] {
      assert ms + [] == ms;
    } else {
      var last := |calls| - 1;
      var before := Serve(env, start, s, calls[..last]);
      var sent := ProducedTo(env, start, calls[..last], topic);
      SessionRoutes(env, start, s, calls[..last], topic, n, ms);
      RespondRoutes(env, start + last, before.state, calls[last], topic);
      forall m
        ensures ms + (sent + [m]) == (ms + sent) + [m]
        ensures After(env.hash, n, (ms + sent) + [m])
             == ProduceNext(After(env.hash, n, ms + sent), env.hash, m)
      {
        AfterSnoc(env.hash, n, ms + sent, m);
      }
      assert sent + [] == sent;
    }
  }

  /** A produce that did not panic had a key the codec takes. */
  lemma PanicsOnKey(env: Env, i: nat, s: State, c: Call, topic: bytes)
    requires Iterates(env) && topic in s.topics && s.topics[topic].logs != []
    requires Respond(env, i, s, c).1 != Crashed
    ensures forall m :: m in ProducedTo(env, i, [c], topic) ==> |m.key| <= 65517
  {
    hide DecodeProduceRequest, OnCommitOffset, Iterates, OnFetch, OnListTopics, OnFetchOffset,
         OnCreateTopic, ProduceNext, Route;
    assert [c][..0] == [];
    ShortKey(c.payload);
  }

  lemma {:induction false} SessionAccepted(env: Env, start: nat, s: State, calls: seq<Call>, topic: bytes)
    requires Iterates(env) && !Serve(env, start, s, calls).crashed && Small(s, start)
    requires topic in s.topics && s.topics[topic].logs != []
    ensures |ProducedTo(env, start, calls, topic)| <= |calls|
    ensures forall m :: m in ProducedTo(env, start, calls, topic) ==> |m.key| <= 65517
  {
    hide Respond, Iterates, DecodeProduceRequest, Small, Grows;
    if calls != [] {
      var last := |calls| - 1;
      var before := Serve(env, start, s, calls[..last]).state;
      SessionAccepted(env, start, s, calls[..last], topic);
      ServeGrows(env, start, s, calls[..last]);
      StillThere(s, before, topic);
      PanicsOnKey(env, start + last, before, calls[last], topic);
      assert [calls[last]][..0] == [];
    }
  }

  lemma StillThere(s: State, t: State, topic: bytes)
    requires Grows(s, t) && topic in s.topics
    ensures topic in t.topics && |t.topics[topic].logs| == |s.topics[topic].logs|
  {
    assert LogsGrow(s.topics[topic].logs, t.topics[topic].logs);
  }

  /** In a session without a deadly request the produces to a topic with partitions are accepted. */
  lemma SessionAccepts(env: Env, start: nat, s: State, calls: seq<Call>, topic: bytes)
    requires Iterates(env) && Small(s, start) && CountersBelow(s, |calls|)
    requires forall k :: 0 <= k < |calls| ==> !Deadly(s, calls, k)
    requires HasPartitions(s, topic)
    ensures !Serve(env, start, s, calls).crashed
    ensures var sent := ProducedTo(env, start, calls, topic);
            Accepted(sent) && forall i :: 0 <= i < |sent| ==> |sent[i].key| <= 65517
  {
    hide Respond, Serve, Iterates, Small, ProducedTo, Deadly, CountersBelow;
    AllAnswered(env, start, s, calls);
    SessionAccepted(env, start, s, calls, topic);
    FewRequests(s, |calls|);
    var sent := ProducedTo(env, start, calls, topic);
    forall i | 0 <= i < |sent|
      ensures KeyLen(sent[i].key) <= 65517 && |sent[i].key| <= 65517
    {
      assert sent[i] in sent;
    }
  }

  lemma FewRequests(s: State, requests: nat)
    requires CountersBelow(s, requests)
    ensures requests < 0x8000_0000_0000_0000
  {
  }

  /**
    In a session without a deadly request that starts with a new topic, each partition ends
    with exactly the messages destined for it, and those of one key in the order they were sent.
   */
  lemma SessionKeyOrder(env: Env, start: nat, s: State, calls: seq<Call>, topic: bytes, p: nat, key: bytes)
    requires Iterates(env) && Small(s, start) && CountersBelow(s, |calls|)
    requires forall k :: 0 <= k < |calls| ==> !Deadly(s, calls, k)
    requires topic in s.topics && s.topics[topic] == Fresh(|s.topics[topic].logs|)
    requires p < |s.topics[topic].logs| && key != []
    ensures var t, n := Serve(env, start, s, calls).state.topics, |s.topics[topic].logs|;
            var sent := ProducedTo(env, start, calls, topic);
            && topic in t && |t[topic].logs| == n
            && t[topic].logs[p] == TopicSpec.Delivered(env.hash, n, sent, p)
            && Having(t[topic].logs[p], key)
               == if p == env.hash(key) % n then WithKey(sent, key) else []
  {
    hide Respond, Serve, Iterates, Small, ProducedTo, TopicSpec.Delivered, Having, WithKey, Deadly,
         CountersBelow, Accepted;
    var n, sent := |s.topics[topic].logs|, ProducedTo(env, start, calls, topic);
    assert s.topics[topic] == After(env.hash, n, []);
    assert [] + sent == sent;
    SessionAccepts(env, start, s, calls, topic);
    SessionRoutes(env, start, s, calls, topic, n, []);
    RunDelivers(env.hash, n, sent, p);
    KeyOrder(env.hash, n, sent, key, p);
  }
}
