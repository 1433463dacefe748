/**
  Whole runs of a broker: connections one after the other, and restarts between them. A
  panic takes the broker down until the next restart.
 */
module BrokerRuns {
  import opened Bytes
  import opened Outcomes
  import opened Record
  import opened Segments
  import opened TopicSpec
  import opened Topics
  import opened Places
  import opened Restart
  import opened Utf8
  import opened Protocol
  import opened Responses
  import opened Wire
  import opened Decimal
  import opened Groups
  import opened BrokerSpec
  import opened EndToEnd
  import GroupSpec

  datatype BrokerEvent = Connect(input: bytes) | Reboot

  /** The state, the requests read so far, whether it is down, and what each client got. */
  datatype Broker = Broker(state: State, served: nat, down: bool, outputs: seq<bytes>)

  function Empty(): State { State(map[], GroupSpec.State(map[], map[])) }

  ghost function Next(env: Env, b: Broker, e: BrokerEvent): Broker
    requires Iterates(env)
  {
    match e
    case Reboot => b.(state := RestartState(b.state), down := false)
    case Connect(input) =>
      if b.down then b.(outputs := b.outputs + [[]])
      else
        var r := Serve(env, b.served, b.state, Calls(input));
        Broker(r.state, b.served + |Calls(input)|, r.crashed || Ending(input) == Panic,
               b.outputs + [AnswersBytes(r.answers)])
  }

  ghost function BrokerAfter(env: Env, events: seq<BrokerEvent>): Broker
    requires Iterates(env)
  {
    if events == [] then Broker(Empty(), 0, false, [])
    else Next(env, BrokerAfter(env, events[..|events| - 1]), events[|events| - 1])
  }

  /** How many requests the clients of a run send. */
  function Requests(events: seq<BrokerEvent>): nat {
    if events == [] then 0
    else
      Requests(events[..|events| - 1])
        + match events[|events| - 1]
          case Connect(input) => |Calls(input)|
          case Reboot => 0
  }

  // ---------- invariants of every run ----------

  ghost predicate Sound(b: Broker) {
    Small(b.state, b.served) && AllPlaced(b.state)
  }

  lemma NextSound(env: Env, b: Broker, e: BrokerEvent)
    requires Iterates(env) && Sound(b)
    ensures Sound(Next(env, b, e))
  {
    hide Iterates, Serve, Small, AllPlaced, RestartState, Calls, Ending, AnswersBytes;
    match e {
      case Reboot => RestartSmall(b.state, b.served);
      case Connect(input) =>
        ServeGrows(env, b.served, b.state, Calls(input));
        ServePlaced(env, b.served, b.state, Calls(input));
    }
  }

  lemma {:induction false} AfterSound(env: Env, events: seq<BrokerEvent>)
    requires Iterates(env)
    ensures Sound(BrokerAfter(env, events)) && BrokerAfter(env, events).served <= Requests(events)
  {
    hide Iterates, Sound, Serve, Calls, RestartState;
    if events == [] {
      EmptySound();
    } else {
      AfterSound(env, events[..|events| - 1]);
      NextSound(env, BrokerAfter(env, events[..|events| - 1]), events[|events| - 1]);
    }
  }

  lemma EmptySound()
    ensures Sound(Broker(Empty(), 0, false, []))
  {
  }

  // ---------- names ----------

  /** Topics are created under names a restart finds again, and offsets committed under text. */
  predicate NamesWell(c: Call) {
    if c.apiKey == 2 then CreatesWell(c.payload)
    else if c.apiKey == 4 then CommitsWell(c.payload)
    else true
  }

  predicate CreatesWell(p: bytes) {
    var d := DecodeCreateTopicRequest(p);
    d.Parsed? && d.value.CreateTopic? ==> PlainName(d.value.topic) && d.value.topic[0] != 0x2E
  }

  predicate CommitsWell(p: bytes) {
    var d := DecodeCommitOffsetRequest(p);
    d.Parsed? && d.value.CommitOffset? ==> Textual(d.value.group) && Textual(d.value.topic)
  }

  /** The protocol itself does not ask for such a name: a topic can be created under none. */
  lemma NamelessTopic()
    ensures DecodeCreateTopicRequest([0, 0, 0, 0, 0, 1]) == Parsed(CreateTopic([], 1))
    ensures !PlainName([])
  {
    var p: bytes := [0, 0, 0, 0, 0, 1];
    assert p[0..2] == [0, 0] && p[2..6] == [0, 0, 0, 1] && p[2..2] == [];
  }

  predicate EventNamesWell(e: BrokerEvent) {
    e.Connect? ==> forall k :: 0 <= k < |Calls(e.input)| ==> NamesWell(Calls(e.input)[k])
  }

  ghost predicate Named(s: State) {
    && (forall n :: n in s.topics ==> PlainName(n) && Visible(n))
    && TextualGroups(s.groups.memory) && TextualGroups(s.groups.disk)
  }

  lemma RespondNamed(env: Env, i: nat, s: State, c: Call)
    requires Iterates(env) && Named(s) && NamesWell(c)
    ensures Named(Respond(env, i, s, c).0)
  {
    hide Iterates, OnFetch, OnListTopics, OnFetchOffset, ProduceNext, ProduceReply, PlainName, Visible,
         Textual, TextualGroups, GroupSpec.Step, DecodeProduceRequest, DecodeCreateTopicRequest,
         DecodeCommitOffsetRequest;
    DecodedKinds(c.payload);
    if c.apiKey == 4 && DecodeCommitOffsetRequest(c.payload).Parsed? {
      var r := DecodeCommitOffsetRequest(c.payload).value;
      StaysTextual(env.home, s.groups,
                   GroupSpec.Commit(r.group, r.topic, r.partition, r.offset, env.fault(i)));
    }
  }

  lemma {:induction false} ServeNamed(env: Env, start: nat, s: State, calls: seq<Call>)
    requires Iterates(env) && Named(s) && forall k :: 0 <= k < |calls| ==> NamesWell(calls[k])
    ensures Named(Serve(env, start, s, calls).state)
  {
    hide Iterates, Respond, Named, NamesWell;
    if calls != [] {
      var last := |calls| - 1;
      ServeNamed(env, start, s, calls[..last]);
      RespondNamed(env, start + last, Serve(env, start, s, calls[..last]).state, calls[last]);
    }
  }

  lemma RestartNamed(s: State)
    requires Named(s)
    ensures Named(RestartState(s))
    ensures AllPlain(s.topics) && VisibleOf(s.topics.Keys) == s.topics.Keys
  {
    hide PlainName, Visible, Textual, Reloaded;
  }

  lemma NextNamed(env: Env, b: Broker, e: BrokerEvent)
    requires Iterates(env) && Named(b.state) && EventNamesWell(e)
    ensures Named(Next(env, b, e).state)
  {
    hide Iterates, Serve, Named, NamesWell, RestartState, Calls, Ending, AnswersBytes;
    match e {
      case Reboot => RestartNamed(b.state);
      case Connect(input) => ServeNamed(env, b.served, b.state, Calls(input));
    }
  }

  // ---------- messages ----------

  /** The message is in the partition of this id, at whatever position that is. */
  ghost predicate Kept(s: State, topic: bytes, id: int, o: nat, r: Rec) {
    && topic in s.topics && id in s.topics[topic].ids
    && Present(s, topic, IndexOf(s.topics[topic].ids, id), o, r)
  }

  lemma ServeKeeps(env: Env, start: nat, s: State, calls: seq<Call>, topic: bytes, id: int, o: nat, r: Rec)
    requires Iterates(env) && Small(s, start) && AllPlaced(s) && Kept(s, topic, id, o, r)
    ensures var t := Serve(env, start, s, calls).state;
            Kept(t, topic, id, o, r) && t.topics[topic].ids == s.topics[topic].ids
  {
    hide Iterates, Small, Serve, Grows, AllPlaced, Present, IndexOf;
    var t := Serve(env, start, s, calls).state;
    ServeGrows(env, start, s, calls);
    ServePlaced(env, start, s, calls);
    PresentOn(s, t, topic, IndexOf(s.topics[topic].ids, id), o, r);
  }

  lemma RestartKeeps(s: State, topic: bytes, id: int, o: nat, r: Rec)
    requires AllPlaced(s) && Visible(topic) && Kept(s, topic, id, o, r)
    ensures topic in RestartState(s).topics && Kept(RestartState(s), topic, id, o, r)
    ensures |s.topics[topic].ids| <= 10 ==> RestartState(s).topics[topic].ids == s.topics[topic].ids
  {
    hide Visible, Present, Numbered, Reloaded, VisibleOf;
    var t := s.topics[topic];
    var p := IndexOf(t.ids, id);
    VisibleIn(s.topics.Keys, topic);
    PresentRestarted(s, topic, p, o, r);
    SortedFacts(t.ids);
    if |t.ids| <= 10 {
      FewStay(t);
    }
  }

  lemma NextKeeps(env: Env, b: Broker, e: BrokerEvent, topic: bytes, id: int, o: nat, r: Rec)
    requires Iterates(env) && Sound(b) && Visible(topic) && Kept(b.state, topic, id, o, r)
    ensures var t := Next(env, b, e).state;
            && Kept(t, topic, id, o, r)
            && (|b.state.topics[topic].ids| <= 10 ==> t.topics[topic].ids == b.state.topics[topic].ids)
  {
    hide Iterates, Small, Serve, AllPlaced, RestartState, Calls, Ending, AnswersBytes, Present, IndexOf,
         Visible;
    match e {
      case Reboot => RestartKeeps(b.state, topic, id, o, r);
      case Connect(input) => ServeKeeps(env, b.served, b.state, Calls(input), topic, id, o, r);
    }
  }

  /** Nothing that happens to a broker loses a message or moves it out of its partition. */
  lemma {:induction false} RunKeeps(env: Env, events: seq<BrokerEvent>, n: nat, topic: bytes, id: int,
                                    o: nat, r: Rec)
    requires Iterates(env) && n <= |events| && (topic == [] || topic[0] != 0x2E)
    requires Kept(BrokerAfter(env, events[..n]).state, topic, id, o, r)
    ensures Kept(BrokerAfter(env, events).state, topic, id, o, r)
    ensures var ids := BrokerAfter(env, events[..n]).state.topics[topic].ids;
            |ids| <= 10 ==> BrokerAfter(env, events).state.topics[topic].ids == ids
  {
    hide Iterates, Next, Sound, Visible, Kept;
    if n == |events| {
      assert events[..n] == events;
      KeptTopic(BrokerAfter(env, events).state, topic, id, o, r);
    } else {
      var q := events[..|events| - 1];
      assert q[..n] == events[..n];
      RunKeeps(env, q, n, topic, id, o, r);
      AfterSound(env, q);
      KeptTopic(BrokerAfter(env, q).state, topic, id, o, r);
      NextKeeps(env, BrokerAfter(env, q), events[|events| - 1], topic, id, o, r);
    }
  }

  lemma KeptTopic(s: State, topic: bytes, id: int, o: nat, r: Rec)
    requires Kept(s, topic, id, o, r)
    ensures topic in s.topics
  {
  }

  lemma {:induction false} CallsFramed(input: bytes)
    ensures forall k :: 0 <= k < |Calls(input)| ==> Framed(Calls(input)[k])
    decreases |input|
  {
    hide Get16, Get32;
    match NextCall(input)
    case Ok((c, rest)) => CallsFramed(rest);
    case _ =>
  }

  lemma {:induction false} RequestsGrow(events: seq<BrokerEvent>, n: nat)
    requires n <= |events|
    ensures Requests(events[..n]) <= Requests(events)
  {
    hide Calls;
    if n == |events| {
      assert events[..n] == events;
    } else {
      RequestsGrow(events[..|events| - 1], n);
      assert events[..|events| - 1][..n] == events[..n];
    }
  }

  /** What the session of a connection starts from. */
  lemma SessionStart(env: Env, events: seq<BrokerEvent>, n: nat)
    requires Iterates(env) && n < |events| && events[n].Connect? && !BrokerAfter(env, events[..n]).down
    ensures var b, calls := BrokerAfter(env, events[..n]), Calls(events[n].input);
            && Sound(b) && b.served + |calls| <= Requests(events)
            && BrokerAfter(env, events[..n + 1]).state == Serve(env, b.served, b.state, calls).state
  {
    hide Iterates, Sound, Serve, Calls, Ending, AnswersBytes;
    AfterSound(env, events[..n]);
    RequestsGrow(events, n + 1);
    assert events[..n + 1][..n] == events[..n];
  }

  /** Behind the session that acknowledged it, a message is kept in its partition. */
  lemma Settles(env: Env, start: nat, s: State, calls: seq<Call>, i: nat, sent: Request, p: int32, o: uint64)
    requires Iterates(env) && Small(s, start) && AllPlaced(s) && start + |calls| < B64
    requires var answers := Serve(env, start, s, calls).answers;
             && i < |answers| && i < |calls| && Framed(calls[i])
             && calls[i].apiKey == 0 && DecodeProduceRequest(calls[i].payload) == Parsed(sent)
             && answers[i].code == 0 && DecodeProduceResponse(answers[i].payload) == Some((p, o))
    ensures var t := Serve(env, start, s, calls).state.topics;
            && sent.Produce? && |sent.key| < B16 && |sent.value| < B32
            && sent.topic in t && 0 <= p < |t[sent.topic].ids|
            && Kept(Serve(env, start, s, calls).state, sent.topic, t[sent.topic].ids[p], o,
                    Rec(env.clock(start + i), sent.key, sent.value))
            && IndexOf(t[sent.topic].ids, t[sent.topic].ids[p]) == p
  {
    hide Iterates, Small, Serve, Grows, AllPlaced, DecodeProduceRequest, DecodeProduceResponse, Present,
         Kept, IndexOf;
    DecodedKinds(calls[i].payload);
    var t := Serve(env, start, s, calls).state;
    var r := Rec(env.clock(start + i), sent.key, sent.value);
    FrameFits(calls[i].payload);
    SessionStores(env, start, s, calls, i, sent, p, o);
    GrowsBehind(env, start, s, calls, i + 1);
    PresentOn(Serve(env, start, s, calls[..i + 1]).state, t, sent.topic, p, o, r);
    ServePlaced(env, start, s, calls);
    KeptAt(t, sent.topic, p, o, r);
  }

  /** A message at a position is in the partition of that position. */
  lemma KeptAt(s: State, topic: bytes, p: int, o: nat, r: Rec)
    requires AllPlaced(s) && Present(s, topic, p, o, r)
    ensures topic in s.topics && 0 <= p < |s.topics[topic].ids|
    ensures Kept(s, topic, s.topics[topic].ids[p], o, r)
    ensures IndexOf(s.topics[topic].ids, s.topics[topic].ids[p]) == p
  {
    hide Numbered, IndexOf, NamesOf, PartitionId, IdAt, Present;
    PresentIn(s, topic, p, o, r);
    var ids := s.topics[topic].ids;
    PlacedAt(s, topic);
    NamesDiffer(ids);
    assert ids[p] in ids;
  }

  /**
    What a broker once acknowledged it serves for ever: after any number of other connections
    and restarts, a fetch of the acknowledged offset, from the position at which the partition
    is by then, is answered with exactly the message. In a topic of at most ten partitions
    that is the acknowledged position.
   */
  lemma AcknowledgedForever(env: Env, events: seq<BrokerEvent>, a: nat, b: nat, i: nat, j: nat,
                            sent: Request, p: int32, o: uint64, p': int32)
    requires Iterates(env) && a < b < |events| && Requests(events) < B64
    requires events[a].Connect? && events[b].Connect? && (sent.topic == [] || sent.topic[0] != 0x2E)
    requires var A, calls := BrokerAfter(env, events[..a]), Calls(events[a].input);
             var answers := Serve(env, A.served, A.state, calls).answers;
             && !A.down && i < |answers| && i < |calls|
             && calls[i].apiKey == 0 && DecodeProduceRequest(calls[i].payload) == Parsed(sent)
             && answers[i].code == 0 && DecodeProduceResponse(answers[i].payload) == Some((p, o))
    requires var B, calls := BrokerAfter(env, events[..b]), Calls(events[b].input);
             && !B.down && j < |calls| && j < |Serve(env, B.served, B.state, calls).answers|
             && calls[j].apiKey == 1
             && DecodeFetchRequest(calls[j].payload) == Parsed(Request.Fetch(sent.topic, p', o, 1))
    requires var home := BrokerAfter(env, events[..a + 1]).state.topics;
             var now := BrokerAfter(env, events[..b]).state.topics;
             sent.topic in home && sent.topic in now && 0 <= p < |home[sent.topic].ids|
             ==> p' == IndexOf(now[sent.topic].ids, home[sent.topic].ids[p])
    ensures var A, B := BrokerAfter(env, events[..a]), BrokerAfter(env, events[..b]);
            var answer := Serve(env, B.served, B.state, Calls(events[b].input)).answers[j];
            && sent.Produce? && answer.id == Calls(events[b].input)[j].id && answer.code == 0
            && DecodeFetchResponse(answer.payload)
               == Some([Message(o, env.clock(A.served + i), sent.key, sent.value)])
    ensures var home := BrokerAfter(env, events[..a + 1]).state.topics;
            sent.topic in home && (|home[sent.topic].ids| <= 10 ==> p' == p)
  {
    hide Iterates, Small, AllPlaced, Serve, BrokerAfter, Calls, DecodeProduceRequest, DecodeFetchRequest,
         DecodeProduceResponse, DecodeFetchResponse, Present, Visible, IndexOf, Requests;
    var A, B := BrokerAfter(env, events[..a]), BrokerAfter(env, events[..b]);
    var home := BrokerAfter(env, events[..a + 1]).state.topics;
    SessionStart(env, events, a);
    SessionStart(env, events, b);
    CallsFramed(events[a].input);
    Settles(env, A.served, A.state, Calls(events[a].input), i, sent, p, o);
    var id := home[sent.topic].ids[p];
    var r := Rec(env.clock(A.served + i), sent.key, sent.value);
    assert events[..b][..a + 1] == events[..a + 1];
    RunKeeps(env, events[..b], a + 1, sent.topic, id, o, r);
    NothingServed(env, B.served, B.state, Calls(events[b].input));
    SessionFetches(env, B.served, B.state, Calls(events[b].input), j, 0, sent.topic, p', o, r);
  }

  // ---------- consumer offsets ----------

  /** The commit that request number i asks for. */
  function CommitOf(env: Env, i: nat, c: Call): Option<GroupSpec.Event> {
    var d := DecodeCommitOffsetRequest(c.payload);
    if c.apiKey == 4 && d.Parsed? && d.value.CommitOffset?
    then Some(GroupSpec.Commit(d.value.group, d.value.topic, d.value.partition, d.value.offset,
                               env.fault(i)))
    else None
  }

  /** The commits among these requests, the first of which has number start. */
  function Commits(env: Env, start: nat, calls: seq<Call>): seq<GroupSpec.Event> {
    if calls == [] then []
    else
      var last := |calls| - 1;
      var before := Commits(env, start, calls[..last]);
      match CommitOf(env, start + last, calls[last])
      case Some(e) => before + [e]
      case None => before
  }

  ghost function AnsweredCalls(env: Env, start: nat, s: State, calls: seq<Call>): seq<Call>
    requires Iterates(env)
  {
    OneAnswerEach(env, start, s, calls);
    calls[..|Serve(env, start, s, calls).answers|]
  }

  /** What a run does to the group manager: the commits it serves, and its restarts. */
  ghost function OffsetEvents(env: Env, events: seq<BrokerEvent>): seq<GroupSpec.Event>
    requires Iterates(env)
  {
    if events == [] then []
    else
      var before := events[..|events| - 1];
      var b := BrokerAfter(env, before);
      match events[|events| - 1]
      case Reboot => OffsetEvents(env, before) + [GroupSpec.Restart]
      case Connect(input) =>
        if b.down then OffsetEvents(env, before)
        else
          OffsetEvents(env, before)
            + Commits(env, b.served, AnsweredCalls(env, b.served, b.state, Calls(input)))
  }

  lemma AfterEvent(env: Env, events: seq<GroupSpec.Event>, e: GroupSpec.Event)
    ensures GroupSpec.After(env.home, events + [e])
         == GroupSpec.Step(env.home, GroupSpec.After(env.home, events), e)
  {
    assert (events + [e])[..|events|] == events;
  }

  lemma RespondGroups(env: Env, i: nat, s: State, c: Call)
    requires Iterates(env)
    ensures Respond(env, i, s, c).0.groups
         == match CommitOf(env, i, c)
            case Some(e) => GroupSpec.Step(env.home, s.groups, e)
            case None => s.groups
    ensures Respond(env, i, s, c).1 == Crashed ==> CommitOf(env, i, c) == None
  {
    hide Iterates, DecodeCommitOffsetRequest, OnProduce, OnCreateTopic, OnFetch, OnListTopics,
         OnFetchOffset, GroupSpec.Step;
    OthersKeepGroups(env, i, s, c.payload);
    DecodedKinds(c.payload);
  }

  /** One more request adds to the answered ones if it does not panic. */
  lemma AnsweredMore(env: Env, start: nat, s: State, calls: seq<Call>)
    requires Iterates(env) && calls != []
    ensures var last := |calls| - 1;
            var before := Serve(env, start, s, calls[..last]);
            var (t, reply) := Respond(env, start + last, before.state, calls[last]);
            var answered := AnsweredCalls(env, start, s, calls);
            if before.crashed
            then Serve(env, start, s, calls) == before
                 && answered == AnsweredCalls(env, start, s, calls[..last])
            else Serve(env, start, s, calls).state == t
                 && AnsweredCalls(env, start, s, calls[..last]) == calls[..last]
                 && answered == if reply == Crashed then calls[..last] else calls
  {
    hide Respond, Iterates;
    var last := |calls| - 1;
    var q := calls[..last];
    OneAnswerEach(env, start, s, q);
    var n := |Serve(env, start, s, q).answers|;
    assert q[..n] == calls[..n] && q[..last] == q && calls[..|calls|] == calls;
  }

  /** A session leaves the groups as its answered commits do. */
  lemma {:induction false} ServeCommits(env: Env, start: nat, s: State, calls: seq<Call>,
                                        past: seq<GroupSpec.Event>)
    requires Iterates(env) && s.groups == GroupSpec.After(env.home, past)
    ensures Serve(env, start, s, calls).state.groups
         == GroupSpec.After(env.home, past + Commits(env, start, AnsweredCalls(env, start, s, calls)))
  {
    hide Respond, Iterates, CommitOf, GroupSpec.After;
    if calls == [] {
      assert past + [] == past;
    } else {
      hide Serve, AnsweredCalls;
      var last := |calls| - 1;
      var q := calls[..last];
      var before := Serve(env, start, s, q);
      ServeCommits(env, start, s, q, past);
      AnsweredMore(env, start, s, calls);
      if !before.crashed {
        RespondGroups(env, start + last, before.state, calls[last]);
        match CommitOf(env, start + last, calls[last]) {
          case Some(e) =>
            AfterEvent(env, past + Commits(env, start, q), e);
            assert past + (Commits(env, start, q) + [e]) == (past + Commits(env, start, q)) + [e];
          case None =>
        }
      }
    }
  }

  /** A run leaves memory and disk as its commits and restarts do. */
  lemma {:induction false} OffsetsOfRun(env: Env, events: seq<BrokerEvent>)
    requires Iterates(env)
    ensures BrokerAfter(env, events).state.groups == GroupSpec.After(env.home, OffsetEvents(env, events))
  {
    hide Iterates, Serve, Calls, Ending, AnswersBytes, Commits, GroupSpec.After, AllReloaded, VisibleOf;
    if events == [] {
      NoOffsets(env);
    } else {
      var before := events[..|events| - 1];
      var b, past := BrokerAfter(env, before), OffsetEvents(env, before);
      OffsetsOfRun(env, before);
      match events[|events| - 1] {
        case Reboot => AfterEvent(env, past, GroupSpec.Restart);
        case Connect(input) => ServeCommits(env, b.served, b.state, Calls(input), past);
      }
    }
  }

  lemma NoOffsets(env: Env)
    ensures GroupSpec.After(env.home, []) == Empty().groups
  {
  }

  /**
    Every offset fetch of a run is answered with the offset that is visible after the commits
    and restarts before it: the latest commit for its key, unless a restart has undone it
    because its write had failed.
   */
  lemma OffsetsForever(env: Env, events: seq<BrokerEvent>, n: nat, j: nat, g: bytes, t: bytes, p: int32)
    requires Iterates(env) && n < |events| && events[n].Connect?
    requires var b, calls := BrokerAfter(env, events[..n]), Calls(events[n].input);
             && !b.down && j < |calls| && j < |Serve(env, b.served, b.state, calls).answers|
             && calls[j].apiKey == 5
             && DecodeFetchOffsetRequest(calls[j].payload) == Parsed(FetchOffset(g, t, p))
    ensures var b, calls := BrokerAfter(env, events[..n]), Calls(events[n].input);
            var answer := Serve(env, b.served, b.state, calls).answers[j];
            var past := OffsetEvents(env, events[..n]) + Commits(env, b.served, calls[..j]);
            && answer.id == calls[j].id && answer.code == 0
            && answer.payload
               == match GroupSpec.Visible(env.home, past, g, t, p)
                  case Some(o) => OffsetBytes(o, true)
                  case None => OffsetBytes(0, false)
  {
    hide Iterates, Serve, BrokerAfter, Calls, DecodeFetchOffsetRequest, GroupSpec.Lookup, OffsetBytes,
         OnProduce, OnFetch, OnCreateTopic, OnCommitOffset, OnListTopics, Commits, GroupSpec.After,
         GroupSpec.Visible, OffsetEvents;
    var b, calls := BrokerAfter(env, events[..n]), Calls(events[n].input);
    var past := OffsetEvents(env, events[..n]);
    OffsetsOfRun(env, events[..n]);
    AnswerOf(env, b.served, b.state, calls, j);
    NotCrashedBefore(env, b.served, b.state, calls, j);
    OneAnswerEach(env, b.served, b.state, calls[..j]);
    ServeCommits(env, b.served, b.state, calls[..j], past);
    assert AnsweredCalls(env, b.served, b.state, calls[..j]) == calls[..j];
    GroupSpec.LookupsAfter(env.home, past + Commits(env, b.served, calls[..j]), g, t, p);
  }
}
