/**
  Laws of whole runs of a broker: how logs grow across connections, panics and restarts, who
  is answered, where messages of one key are, and what a consumer sees that polls.
 */
module RunLaws {
  import opened Bytes
  import opened Outcomes
  import opened Record
  import opened Segments
  import opened LogSpec
  import opened TopicSpec
  import opened Topics
  import opened Places
  import opened Restart
  import opened Protocol
  import opened Responses
  import opened Wire
  import opened BrokerSpec
  import opened Answering
  import opened EndToEnd
  import opened Clients
  import opened BrokerRuns

  // ---------- logs grow ----------

  /** The log of the partition of this id, empty as long as there is none. */
  function LogIn(s: State, topic: bytes, id: int): Messages {
    if topic in s.topics then LogOf(s.topics[topic], id) else []
  }

  lemma SameIdsGrow(s: State, t: State, topic: bytes, id: int)
    requires AllPlaced(s) && AllPlaced(t) && Grows(s, t)
    requires topic in s.topics ==> topic in t.topics && t.topics[topic].ids == s.topics[topic].ids
    ensures LogIn(s, topic, id) <= LogIn(t, topic, id)
  {
    hide Numbered, IndexOf;
    if topic in s.topics {
      PlacedAt(s, topic);
      PlacedAt(t, topic);
      assert LogsGrow(s.topics[topic].logs, t.topics[topic].logs);
    }
  }

  lemma RestartLogIn(s: State, topic: bytes, id: int)
    requires AllPlaced(s) && Visible(topic)
    ensures LogIn(RestartState(s), topic, id) == LogIn(s, topic, id)
  {
    hide Visible, Numbered, Reloaded, VisibleOf, IndexOf, SortedIds;
    VisibleIn(s.topics.Keys, topic);
    if topic in s.topics {
      var t := s.topics[topic];
      PlacedAt(s, topic);
      SortedFacts(t.ids);
      ReloadPermutes(t);
      if id in t.ids {
        var p := IndexOf(t.ids, id);
        assert NewPlace(t, p) == IndexOf(SortedIds(t.ids), id);
      }
    }
  }

  lemma NextLogIn(env: Env, b: Broker, e: BrokerEvent, topic: bytes, id: int)
    requires Iterates(env) && Sound(b) && Visible(topic)
    ensures LogIn(b.state, topic, id) <= LogIn(Next(env, b, e).state, topic, id)
  {
    hide Iterates, Small, Grows, Serve, AllPlaced, RestartState, Calls, Ending, AnswersBytes, LogIn, Visible;
    match e {
      case Reboot => RestartLogIn(b.state, topic, id);
      case Connect(input) =>
        ServeGrows(env, b.served, b.state, Calls(input));
        ServePlaced(env, b.served, b.state, Calls(input));
        SameIdsGrow(b.state, Serve(env, b.served, b.state, Calls(input)).state, topic, id);
    }
  }

  /** Across anything that happens to a broker, the log of a partition only grows at its end. */
  lemma {:induction false} RunLogIn(env: Env, events: seq<BrokerEvent>, n: nat, topic: bytes, id: int)
    requires Iterates(env) && n <= |events| && (topic == [] || topic[0] != 0x2E)
    ensures LogIn(BrokerAfter(env, events[..n]).state, topic, id)
         <= LogIn(BrokerAfter(env, events).state, topic, id)
  {
    hide Iterates, Next, Sound, Visible, LogIn;
    if n == |events| {
      assert events[..n] == events;
    } else {
      var q := events[..|events| - 1];
      assert q[..n] == events[..n];
      RunLogIn(env, q, n, topic, id);
      AfterSound(env, q);
      NextLogIn(env, BrokerAfter(env, q), events[|events| - 1], topic, id);
    }
  }

  // ---------- who is answered ----------

  ghost predicate CountersWithin(s: State, n: nat) {
    forall t :: t in s.topics ==> s.topics[t].counter <= n
  }

  lemma RespondCounters(env: Env, i: nat, s: State, c: Call, n: nat)
    requires Iterates(env) && CountersWithin(s, n) && n + 1 < B64
    ensures CountersWithin(Respond(env, i, s, c).0, n + 1)
  {
    hide Iterates, OnFetch, OnListTopics, OnFetchOffset, OnCommitOffset, ProduceNext, ProduceReply,
         DecodeProduceRequest, DecodeCreateTopicRequest, NewTopic;
    DecodedKinds(c.payload);
    CommitKeepsTopics(env, i, s, c.payload);
    if c.apiKey == 0 && DecodeProduceRequest(c.payload).Parsed? {
      var r := DecodeProduceRequest(c.payload).value;
      if r.topic in s.topics {
        CounterStep(s.topics[r.topic], env.hash, Produced.Produced(env.clock(i), r.key, r.value));
      }
    } else if c.apiKey == 2 && DecodeCreateTopicRequest(c.payload).Parsed? {
      NewCounter(DecodeCreateTopicRequest(c.payload).value.numPartitions);
    }
  }

  lemma {:induction false} ServeCounters(env: Env, start: nat, s: State, calls: seq<Call>, n: nat)
    requires Iterates(env) && CountersWithin(s, n) && n + |calls| < B64
    ensures CountersWithin(Serve(env, start, s, calls).state, n + |calls|)
  {
    hide Iterates, Respond;
    if calls != [] {
      var last := |calls| - 1;
      ServeCounters(env, start, s, calls[..last], n);
      RespondCounters(env, start + last, Serve(env, start, s, calls[..last]).state, calls[last], n + last);
    }
  }

  lemma RestartCounters(s: State)
    ensures CountersWithin(RestartState(s), 0)
  {
    hide Reloaded, VisibleOf;
  }

  /** No round-robin counter exceeds the requests read so far. */
  lemma {:induction false} AfterCounters(env: Env, events: seq<BrokerEvent>)
    requires Iterates(env) && Requests(events) < B64
    ensures CountersWithin(BrokerAfter(env, events).state, BrokerAfter(env, events).served)
  {
    hide Iterates, Serve, Calls, Ending, AnswersBytes, RestartState, CountersWithin;
    if events == [] {
      NoCounters();
    } else {
      var q := events[..|events| - 1];
      var b := BrokerAfter(env, q);
      RequestsGrow(events, |events| - 1);
      AfterCounters(env, q);
      AfterSound(env, q);
      match events[|events| - 1] {
        case Reboot =>
          RestartCounters(b.state);
          MoreCounters(RestartState(b.state), 0, b.served);
        case Connect(input) =>
          if !b.down {
            ServeCounters(env, b.served, b.state, Calls(input), b.served);
          }
      }
    }
  }

  lemma NoCounters()
    ensures CountersWithin(Empty(), 0)
  {
  }

  lemma MoreCounters(s: State, n: nat, m: nat)
    requires CountersWithin(s, n) && n <= m
    ensures CountersWithin(s, m)
  {
  }

  lemma StayBelow(s: State, n: nat, requests: nat)
    requires CountersWithin(s, n) && n + requests < 0x8000_0000_0000_0000
    ensures CountersBelow(s, requests)
  {
  }

  /**
    In every run with fewer than 2^63 requests, a connection gets one response per request
    exactly if none of its requests is deadly, and it takes the broker down exactly if one is
    or its last frame has a length below six.
   */
  lemma ConnectionAnswered(env: Env, events: seq<BrokerEvent>, n: nat)
    requires Iterates(env) && n < |events| && Requests(events) < 0x8000_0000_0000_0000
    requires events[n].Connect? && !BrokerAfter(env, events[..n]).down
    ensures var b, calls := BrokerAfter(env, events[..n]), Calls(events[n].input);
            var r := Serve(env, b.served, b.state, calls);
            && |r.answers| <= |calls|
            && (|r.answers| == |calls| <==> forall k :: 0 <= k < |calls| ==> !Deadly(b.state, calls, k))
            && (|r.answers| < |calls| ==> Deadly(b.state, calls, |r.answers|))
            && (BrokerAfter(env, events[..n + 1]).down
                <==> (exists k :: 0 <= k < |calls| && Deadly(b.state, calls, k))
                     || Ending(events[n].input) == Panic)
  {
    hide Iterates, Serve, Calls, Ending, AnswersBytes, Deadly, CountersBelow, CountersWithin, Sound;
    var b, calls := BrokerAfter(env, events[..n]), Calls(events[n].input);
    SessionStart(env, events, n);
    RequestsGrow(events, n);
    AfterCounters(env, events[..n]);
    StayBelow(b.state, b.served, |calls|);
    AllAnswered(env, b.served, b.state, calls);
    assert events[..n + 1][..n] == events[..n];
  }

  // ---------- where the messages of a key are ----------

  /** The message that this request is acknowledged for, if it has this topic and key. */
  ghost function AckedNow(env: Env, i: nat, s: State, c: Call, topic: bytes, key: bytes): Messages
    requires Iterates(env)
  {
    var d, reply := DecodeProduceRequest(c.payload), Respond(env, i, s, c).1;
    if c.apiKey == 0 && d.Parsed? && d.value.Produce? && d.value.topic == topic
       && d.value.key == key && reply.Replied? && reply.code == 0
    then [Rec(env.clock(i), key, d.value.value)] else []
  }

  /** The acknowledged messages of a session with this topic and key, in the order sent. */
  ghost function Acked(env: Env, start: nat, s: State, calls: seq<Call>, topic: bytes, key: bytes): Messages
    requires Iterates(env)
  {
    if calls == [] then []
    else
      var last := |calls| - 1;
      var before := Serve(env, start, s, calls[..last]);
      Acked(env, start, s, calls[..last], topic, key)
        + if before.crashed then [] else AckedNow(env, start + last, before.state, calls[last], topic, key)
  }

  ghost function RunAcked(env: Env, events: seq<BrokerEvent>, topic: bytes, key: bytes): Messages
    requires Iterates(env)
  {
    if events == [] then []
    else
      var before := events[..|events| - 1];
      var b := BrokerAfter(env, before);
      RunAcked(env, before, topic, key)
        + match events[|events| - 1]
          case Reboot => []
          case Connect(input) =>
            if b.down then [] else Acked(env, b.served, b.state, Calls(input), topic, key)
  }

  /** The messages of this key are these, all in the partition of its hash. */
  ghost predicate KeyAt(s: State, hash: Hash, topic: bytes, key: bytes, sent: Messages) {
    if HasPartitions(s, topic) then
      var logs := s.topics[topic].logs;
      forall p :: 0 <= p < |logs|
        ==> Having(logs[p], key) == if p == hash(key) % |logs| then sent else []
    else sent == []
  }

  /** One produce adds its message to the end of the partition of its key. */
  lemma ProduceKeyAt(env: Env, i: nat, s: State, c: Call, topic: bytes, key: bytes, sent: Messages)
    requires Iterates(env) && key != [] && c.apiKey == 0
    requires DecodeProduceRequest(c.payload).Parsed? && DecodeProduceRequest(c.payload).value.Produce?
    requires DecodeProduceRequest(c.payload).value.topic == topic && HasPartitions(s, topic)
    requires KeyAt(s, env.hash, topic, key, sent)
    ensures KeyAt(Respond(env, i, s, c).0, env.hash, topic, key,
                  sent + AckedNow(env, i, s, c, topic, key))
  {
    hide DecodeProduceRequest, Iterates, Route, Having, ProducePayload;
    ShortKey(c.payload);
    var r, t := DecodeProduceRequest(c.payload).value, s.topics[topic];
    var m := Produced.Produced(env.clock(i), r.key, r.value);
    var q := Route(env.hash, |t.logs|, t.counter, r.key);
    if r.key != [] {
      KeyedRoute(env.hash, |t.logs|, t.counter, r.key);
    }
    if q >= 0 && KeyLen(r.key) <= 65517 {
      assert AsStored(env.clock(i), r.key, r.value).key == r.key;
      HavingSnoc(t.logs[q], AsStored(env.clock(i), r.key, r.value), key);
    }
    assert sent + [] == sent;
  }

  lemma CreateKeyAt(s: State, p: bytes, hash: Hash, topic: bytes, key: bytes, sent: Messages)
    requires KeyAt(s, hash, topic, key, sent)
    ensures KeyAt(OnCreateTopic(s, p).0, hash, topic, key, sent)
  {
    hide DecodeCreateTopicRequest;
    HavingNone(key);
  }

  lemma SameTopicKeyAt(s: State, t: State, hash: Hash, topic: bytes, key: bytes, sent: Messages)
    requires KeyAt(s, hash, topic, key, sent)
    requires topic in s.topics <==> topic in t.topics
    requires topic in s.topics ==> t.topics[topic].logs == s.topics[topic].logs
    ensures KeyAt(t, hash, topic, key, sent)
  {
  }

  lemma RespondKeyAt(env: Env, i: nat, s: State, c: Call, topic: bytes, key: bytes, sent: Messages)
    requires Iterates(env) && key != [] && KeyAt(s, env.hash, topic, key, sent)
    ensures KeyAt(Respond(env, i, s, c).0, env.hash, topic, key,
                  sent + AckedNow(env, i, s, c, topic, key))
  {
    hide DecodeProduceRequest, Iterates, OnFetch, OnCreateTopic, OnListTopics, OnCommitOffset,
         OnFetchOffset, ProduceNext, ProduceReply, KeyAt;
    DecodedKinds(c.payload);
    CommitKeepsTopics(env, i, s, c.payload);
    assert sent + [] == sent;
    var d := DecodeProduceRequest(c.payload);
    if c.apiKey == 0 && d.Parsed? && d.value.topic == topic && HasPartitions(s, topic) {
      ProduceKeyAt(env, i, s, c, topic, key, sent);
    } else if c.apiKey == 2 {
      CreateKeyAt(s, c.payload, env.hash, topic, key, sent);
    } else {
      OtherProduce(env, i, s, c, topic);
      SameTopicKeyAt(s, Respond(env, i, s, c).0, env.hash, topic, key, sent);
    }
  }

  /** A request that is no produce to a topic with partitions, nor a creation, leaves the logs. */
  lemma OtherProduce(env: Env, i: nat, s: State, c: Call, topic: bytes)
    requires Iterates(env) && c.apiKey != 2
    requires var d := DecodeProduceRequest(c.payload);
             !(c.apiKey == 0 && d.Parsed? && d.value.Produce? && d.value.topic == topic
               && HasPartitions(s, topic))
    ensures var t := Respond(env, i, s, c).0;
            && (topic in s.topics <==> topic in t.topics)
            && (topic in s.topics ==> t.topics[topic].logs == s.topics[topic].logs)
    ensures forall key :: AckedNow(env, i, s, c, topic, key) == []
  {
    hide DecodeProduceRequest, Iterates, OnFetch, OnListTopics, OnCommitOffset, OnFetchOffset, Route;
    DecodedKinds(c.payload);
    CommitKeepsTopics(env, i, s, c.payload);
  }

  lemma {:induction false} ServeKeyAt(env: Env, start: nat, s: State, calls: seq<Call>, topic: bytes,
                                      key: bytes, sent: Messages)
    requires Iterates(env) && key != [] && KeyAt(s, env.hash, topic, key, sent)
    ensures KeyAt(Serve(env, start, s, calls).state, env.hash, topic, key,
                  sent + Acked(env, start, s, calls, topic, key))
  {
    hide Iterates, Respond, KeyAt, AckedNow;
    assert sent + [] == sent;
    if calls != [] {
      var last := |calls| - 1;
      var q := calls[..last];
      var before := Serve(env, start, s, q);
      ServeKeyAt(env, start, s, q, topic, key, sent);
      var sofar := Acked(env, start, s, q, topic, key);
      if before.crashed {
        assert sofar + [] == sofar;
      } else {
        RespondKeyAt(env, start + last, before.state, calls[last], topic, key, sent + sofar);
        var now := AckedNow(env, start + last, before.state, calls[last], topic, key);
        assert (sent + sofar) + now == sent + (sofar + now);
      }
    }
  }

  /** Topics keep their number of partitions. */
  lemma NextWidth(env: Env, b: Broker, e: BrokerEvent, topic: bytes)
    requires Iterates(env) && Sound(b) && Visible(topic) && topic in b.state.topics
    ensures var t := Next(env, b, e).state.topics;
            topic in t && |t[topic].logs| == |b.state.topics[topic].logs|
  {
    hide Iterates, Small, Serve, Calls, Ending, AnswersBytes, Visible, Numbered, Reloaded, VisibleOf;
    match e {
      case Reboot =>
        VisibleIn(b.state.topics.Keys, topic);
        ReloadedPlaced(b.state.topics[topic]);
      case Connect(input) =>
        ServeGrows(env, b.served, b.state, Calls(input));
        assert b.down || LogsGrow(b.state.topics[topic].logs,
                                  Serve(env, b.served, b.state, Calls(input)).state.topics[topic].logs);
    }
  }

  /** At most ten partitions, or no topic yet. */
  predicate Narrow(s: State, topic: bytes) {
    topic in s.topics ==> |s.topics[topic].logs| <= 10
  }

  lemma RestartKeyAt(s: State, hash: Hash, topic: bytes, key: bytes, sent: Messages)
    requires AllPlaced(s) && Visible(topic) && Narrow(s, topic) && KeyAt(s, hash, topic, key, sent)
    ensures KeyAt(RestartState(s), hash, topic, key, sent)
  {
    hide Visible, Numbered, Reloaded, VisibleOf, Having;
    VisibleIn(s.topics.Keys, topic);
    if topic in s.topics {
      FewStay(s.topics[topic]);
    }
  }

  lemma NextKeyAt(env: Env, b: Broker, e: BrokerEvent, topic: bytes, key: bytes, sent: Messages)
    requires Iterates(env) && Sound(b) && Visible(topic) && Narrow(b.state, topic) && key != []
    requires KeyAt(b.state, env.hash, topic, key, sent)
    ensures KeyAt(Next(env, b, e).state, env.hash, topic, key,
                  sent + match e
                         case Reboot => []
                         case Connect(input) =>
                           if b.down then [] else Acked(env, b.served, b.state, Calls(input), topic, key))
  {
    hide Iterates, Small, Serve, AllPlaced, RestartState, Calls, Ending, AnswersBytes, Visible, KeyAt,
         Narrow, Acked;
    assert sent + [] == sent;
    match e {
      case Reboot => RestartKeyAt(b.state, env.hash, topic, key, sent);
      case Connect(input) =>
        if !b.down {
          ServeKeyAt(env, b.served, b.state, Calls(input), topic, key, sent);
        }
    }
  }

  /**
    In every run, of a topic with at most ten partitions: all messages acknowledged for one
    key are in the partition its hash selects, in the order sent, and in no other one, across
    connections, panics and restarts.
   */
  lemma {:induction false} RunKeyOrder(env: Env, events: seq<BrokerEvent>, topic: bytes, key: bytes)
    requires Iterates(env) && (topic == [] || topic[0] != 0x2E) && key != []
    requires Narrow(BrokerAfter(env, events).state, topic)
    ensures KeyAt(BrokerAfter(env, events).state, env.hash, topic, key, RunAcked(env, events, topic, key))
  {
    hide Iterates, Next, Sound, Visible, KeyAt, Acked;
    if events == [] {
      NoKeys(env.hash, topic, key);
    } else {
      var q := events[..|events| - 1];
      var b := BrokerAfter(env, q);
      AfterSound(env, q);
      if topic in b.state.topics {
        NextWidth(env, b, events[|events| - 1], topic);
      }
      RunKeyOrder(env, q, topic, key);
      NextKeyAt(env, b, events[|events| - 1], topic, key, RunAcked(env, q, topic, key));
    }
  }

  lemma NoKeys(hash: Hash, topic: bytes, key: bytes)
    ensures KeyAt(Empty(), hash, topic, key, [])
  {
  }

  // ---------- where partitions are ----------

  /** A topic's partitions are where they were created, or where a restart has put them. */
  predicate Unmoved(t: TopicState) { t.ids == FirstIds(|t.logs|) }

  predicate Moved(t: TopicState) { t.ids == SortedIds(FirstIds(|t.logs|)) }

  lemma RespondNew(env: Env, i: nat, s: State, c: Call, topic: bytes)
    requires Iterates(env) && topic !in s.topics && topic in Respond(env, i, s, c).0.topics
    ensures Unmoved(Respond(env, i, s, c).0.topics[topic])
  {
    hide Iterates, DecodeProduceRequest, DecodeCreateTopicRequest, OnCommitOffset, ProduceNext,
         ProduceReply;
    DecodedKinds(c.payload);
    CommitKeepsTopics(env, i, s, c.payload);
  }

  lemma {:induction false} ServeNew(env: Env, start: nat, s: State, calls: seq<Call>, topic: bytes)
    requires Iterates(env) && AllPlaced(s) && Small(s, start)
    requires topic !in s.topics && topic in Serve(env, start, s, calls).state.topics
    ensures Unmoved(Serve(env, start, s, calls).state.topics[topic])
  {
    hide Iterates, Respond, AllPlaced, Small;
    if calls != [] {
      var last := |calls| - 1;
      var q := calls[..last];
      var before := Serve(env, start, s, q);
      ServePlaced(env, start, s, q);
      ServeGrows(env, start, s, q);
      if !before.crashed {
        if topic in before.state.topics {
          ServeNew(env, start, s, q, topic);
          RespondPlaced(env, start + last, before.state, calls[last]);
          RespondGrows(env, start + last, before.state, calls[last]);
          assert LogsGrow(before.state.topics[topic].logs,
                          Respond(env, start + last, before.state, calls[last]).0.topics[topic].logs);
        } else {
          RespondNew(env, start + last, before.state, calls[last], topic);
        }
      } else {
        ServeNew(env, start, s, q, topic);
      }
    }
  }

  lemma FirstNumbered(n: nat)
    requires n < 0x8000_0000
    ensures Numbered(FirstIds(n))
  {
  }

  lemma RestartMoves(s: State, i: nat, topic: bytes)
    requires Small(s, i) && topic in RestartState(s).topics
    requires topic in s.topics && (Unmoved(s.topics[topic]) || Moved(s.topics[topic]))
    ensures Moved(RestartState(s).topics[topic])
    ensures |RestartState(s).topics[topic].logs| == |s.topics[topic].logs|
  {
    hide Numbered, SortedIds, Reloaded, VisibleOf;
    VisibleIn(s.topics.Keys, topic);
    var n := |s.topics[topic].logs|;
    FirstNumbered(n);
    SortedFacts(FirstIds(n));
    SortedTwice(FirstIds(n));
    assert |SortedIds(FirstIds(n))| == n;
    SortedFacts(s.topics[topic].ids);
  }

  /** The topic has been through a restart by then. */
  ghost predicate Aged(env: Env, events: seq<BrokerEvent>, n: nat, topic: bytes)
    requires Iterates(env) && n <= |events|
  {
    exists i :: 0 <= i < n && events[i] == Reboot && topic in BrokerAfter(env, events[..i + 1]).state.topics
  }

  /** One event moves the partitions of a topic exactly if it is its first restart. */
  lemma NextShape(env: Env, b: Broker, e: BrokerEvent, topic: bytes)
    requires Iterates(env) && Sound(b)
    requires topic in b.state.topics ==> Unmoved(b.state.topics[topic]) || Moved(b.state.topics[topic])
    ensures var t := Next(env, b, e).state.topics;
            topic in t
            ==> if e == Reboot then topic in b.state.topics && Moved(t[topic])
                else if topic in b.state.topics then t[topic].ids == b.state.topics[topic].ids
                                                     && |t[topic].logs| == |b.state.topics[topic].logs|
                else Unmoved(t[topic])
  {
    hide Iterates, Small, AllPlaced, Serve, Calls, Ending, AnswersBytes, Unmoved, Moved, VisibleOf, Reloaded;
    match e {
      case Reboot =>
        VisibleIn(b.state.topics.Keys, topic);
        if topic in RestartState(b.state).topics {
          RestartMoves(b.state, b.served, topic);
        }
      case Connect(input) =>
        if !b.down {
          var calls := Calls(input);
          ServePlaced(env, b.served, b.state, calls);
          ServeGrows(env, b.served, b.state, calls);
          var t := Serve(env, b.served, b.state, calls).state.topics;
          if topic in b.state.topics {
            assert LogsGrow(b.state.topics[topic].logs, t[topic].logs);
          } else if topic in t {
            ServeNew(env, b.served, b.state, calls, topic);
          }
        }
    }
  }

  lemma AgedMore(env: Env, events: seq<BrokerEvent>, topic: bytes)
    requires Iterates(env) && events != []
    ensures var last := |events| - 1;
            Aged(env, events, |events|, topic)
            <==> Aged(env, events[..last], last, topic)
                 || (events[last] == Reboot && topic in BrokerAfter(env, events).state.topics)
  {
    hide Iterates, Next;
    var last := |events| - 1;
    var q := events[..last];
    assert forall i :: 0 <= i < last ==> q[..i + 1] == events[..i + 1] && q[i] == events[i];
    assert events[..last + 1] == events;
    if i :| 0 <= i < |events| && events[i] == Reboot
            && topic in BrokerAfter(env, events[..i + 1]).state.topics {
      if i < last {
        assert q[i] == Reboot && topic in BrokerAfter(env, q[..i + 1]).state.topics;
      }
    }
    if i :| 0 <= i < last && q[i] == Reboot && topic in BrokerAfter(env, q[..i + 1]).state.topics {
      assert events[i] == Reboot;
    }
  }

  lemma {:induction false} StaysThere(env: Env, events: seq<BrokerEvent>, n: nat, topic: bytes)
    requires Iterates(env) && n <= |events| && Visible(topic)
    requires topic in BrokerAfter(env, events[..n]).state.topics
    ensures topic in BrokerAfter(env, events).state.topics
    ensures |BrokerAfter(env, events).state.topics[topic].logs|
         == |BrokerAfter(env, events[..n]).state.topics[topic].logs|
  {
    hide Iterates, Next, Sound, Visible;
    if n == |events| {
      assert events[..n] == events;
    } else {
      var q := events[..|events| - 1];
      assert q[..n] == events[..n];
      StaysThere(env, q, n, topic);
      AfterSound(env, q);
      NextWidth(env, BrokerAfter(env, q), events[|events| - 1], topic);
    }
  }

  /** A topic that has been through a restart is still there. */
  lemma AgedThere(env: Env, events: seq<BrokerEvent>, topic: bytes)
    requires Iterates(env) && Aged(env, events, |events|, topic)
    ensures topic in BrokerAfter(env, events).state.topics
  {
    hide Iterates, BrokerAfter;
    var i :| 0 <= i < |events| && events[i] == Reboot
             && topic in BrokerAfter(env, events[..i + 1]).state.topics;
    RebootVisible(env, events, i, topic);
    StaysThere(env, events, i + 1, topic);
  }

  lemma RebootVisible(env: Env, events: seq<BrokerEvent>, i: nat, topic: bytes)
    requires Iterates(env) && i < |events| && events[i] == Reboot
    requires topic in BrokerAfter(env, events[..i + 1]).state.topics
    ensures Visible(topic)
  {
    hide Iterates, Visible, RestartState;
    assert events[..i + 1][..i] == events[..i];
    RestartVisible(BrokerAfter(env, events[..i]).state, topic);
  }

  lemma RestartVisible(s: State, topic: bytes)
    requires topic in RestartState(s).topics
    ensures Visible(topic)
  {
    hide Visible, Reloaded;
  }

  /** The partitions of a topic are moved exactly if it has been through a restart. */
  lemma {:induction false} RunShape(env: Env, events: seq<BrokerEvent>, topic: bytes)
    requires Iterates(env) && topic in BrokerAfter(env, events).state.topics
    ensures var t := BrokerAfter(env, events).state.topics[topic];
            if Aged(env, events, |events|, topic) then Moved(t) else Unmoved(t)
  {
    hide Iterates, Next, Sound, Aged;
    if events == [] {
    } else {
      var last := |events| - 1;
      var q := events[..last];
      var b := BrokerAfter(env, q);
      AfterSound(env, q);
      AgedMore(env, events, topic);
      if topic in b.state.topics {
        RunShape(env, q, topic);
      } else if Aged(env, q, last, topic) {
        AgedThere(env, q, topic);
      }
      NextShape(env, b, events[last], topic);
    }
  }

  /**
    Where a client finds partition p of a topic it knew at one moment, told from the number of
    partitions and the restarts: a topic's first restart moves it, and nothing else does.
   */
  lemma PlaceTold(env: Env, events: seq<BrokerEvent>, a: nat, b: nat, topic: bytes, p: nat)
    requires Iterates(env) && a <= b <= |events| && (topic == [] || topic[0] != 0x2E)
    requires topic in BrokerAfter(env, events[..a]).state.topics
    requires p < |BrokerAfter(env, events[..a]).state.topics[topic].logs|
    ensures topic in BrokerAfter(env, events[..b]).state.topics
    ensures var home := BrokerAfter(env, events[..a]).state.topics[topic];
            var now := BrokerAfter(env, events[..b]).state.topics[topic];
            && p < |home.ids|
            && IndexOf(now.ids, home.ids[p])
               == if Aged(env, events[..b], b, topic) && !Aged(env, events[..a], a, topic)
                  then IndexOf(SortedIds(FirstIds(|home.logs|)), p) else p
  {
    hide Iterates, BrokerAfter, Aged, Visible, Numbered, SortedIds, IndexOf, Small;
    assert events[..b][..a] == events[..a];
    StaysThere(env, events[..b], a, topic);
    RunShape(env, events[..a], topic);
    RunShape(env, events[..b], topic);
    AfterSound(env, events[..a]);
    var home := BrokerAfter(env, events[..a]).state.topics[topic];
    var now := BrokerAfter(env, events[..b]).state.topics[topic];
    PlacedAt(BrokerAfter(env, events[..a]).state, topic);
    if Aged(env, events[..a], a, topic) {
      AgedLater(env, events, a, b, topic);
    }
    NamesDiffer(home.ids);
    assert home.ids[p] in home.ids;
    assert IndexOf(home.ids, home.ids[p]) == p;
  }

  lemma AgedLater(env: Env, events: seq<BrokerEvent>, a: nat, b: nat, topic: bytes)
    requires Iterates(env) && a <= b <= |events| && Aged(env, events[..a], a, topic)
    ensures Aged(env, events[..b], b, topic)
  {
    hide Iterates, BrokerAfter;
    var i :| 0 <= i < a && events[..a][i] == Reboot
             && topic in BrokerAfter(env, events[..a][..i + 1]).state.topics;
    assert events[..a][..i + 1] == events[..b][..i + 1] && events[..b][i] == Reboot;
  }

  // ---------- a consumer on the wire ----------

  lemma ReloadedFits(t: TopicState)
    requires forall p :: 0 <= p < |t.logs| ==> LogFits(t.logs[p])
    ensures forall p :: 0 <= p < |Reloaded(t).logs| ==> LogFits(Reloaded(t).logs[p])
  {
    hide SortedIds, IndexOf;
  }

  lemma RestartFits(s: State)
    requires AllFit(s)
    ensures AllFit(RestartState(s))
  {
    hide LogFits, Reloaded, VisibleOf;
    forall n | n in RestartState(s).topics
      ensures forall p :: 0 <= p < |RestartState(s).topics[n].logs|
                ==> LogFits(RestartState(s).topics[n].logs[p])
    {
      VisibleIn(s.topics.Keys, n);
      ReloadedFits(s.topics[n]);
    }
  }

  lemma {:induction false} AfterFits(env: Env, events: seq<BrokerEvent>)
    requires Iterates(env)
    ensures AllFit(BrokerAfter(env, events).state)
  {
    hide Iterates, Serve, Calls, Ending, AnswersBytes, RestartState, AllFit;
    if events == [] {
      NothingFits();
    } else {
      var b := BrokerAfter(env, events[..|events| - 1]);
      AfterFits(env, events[..|events| - 1]);
      match events[|events| - 1] {
        case Reboot => RestartFits(b.state);
        case Connect(input) =>
          CallsFramed(input);
          if !b.down {
            ServeFits(env, b.served, b.state, Calls(input));
          }
      }
    }
  }

  lemma NothingFits()
    ensures AllFit(Empty())
  {
  }

  /** The state in front of request j of connection e. */
  ghost function StateAt(env: Env, events: seq<BrokerEvent>, e: nat, j: nat): State
    requires Iterates(env) && e < |events| && events[e].Connect? && j <= |Calls(events[e].input)|
  {
    var b := BrokerAfter(env, events[..e]);
    Serve(env, b.served, b.state, Calls(events[e].input)[..j]).state
  }

  ghost function AnswersAt(env: Env, events: seq<BrokerEvent>, e: nat): seq<Answer>
    requires Iterates(env) && e < |events| && events[e].Connect?
  {
    var b := BrokerAfter(env, events[..e]);
    Serve(env, b.served, b.state, Calls(events[e].input)).answers
  }

  /** A fetch of a consumer: request call of connection event. */
  datatype Fetching = Fetching(event: nat, call: nat, position: int32, count: uint32)

  /** The fetch is answered, and asks the partition of this id for messages from an offset on. */
  ghost predicate Asks(env: Env, events: seq<BrokerEvent>, f: Fetching, topic: bytes, id: int, from: nat)
    requires Iterates(env)
  {
    && f.event < |events| && events[f.event].Connect?
    && !BrokerAfter(env, events[..f.event]).down
    && var calls := Calls(events[f.event].input);
       && f.call < |calls| && f.call < |AnswersAt(env, events, f.event)|
       && calls[f.call].apiKey == 1 && from < B64
       && DecodeFetchRequest(calls[f.call].payload)
          == Parsed(Request.Fetch(topic, f.position, from, f.count))
       && var s := StateAt(env, events, f.event, f.call);
          topic in s.topics && id in s.topics[topic].ids
          && f.position == IndexOf(s.topics[topic].ids, id)
  }

  /** There is such an answer. */
  ghost predicate Answerable(env: Env, events: seq<BrokerEvent>, f: Fetching)
    requires Iterates(env)
  {
    && f.event < |events| && events[f.event].Connect? && f.call < |Calls(events[f.event].input)|
    && f.call < |AnswersAt(env, events, f.event)|
  }

  /** What the consumer finds in the answer. */
  ghost function PageIn(env: Env, events: seq<BrokerEvent>, f: Fetching): seq<Message>
    requires Iterates(env)
  {
    if !Answerable(env, events, f) then []
    else
      match DecodeFetchResponse(AnswersAt(env, events, f.event)[f.call].payload)
      case Some(ms) => ms
      case None => []
  }

  /** The answer to a fetch holds the page of the partition's log at that moment. */
  lemma PageFound(env: Env, events: seq<BrokerEvent>, f: Fetching, topic: bytes, id: int, from: nat)
    requires Iterates(env) && Requests(events) < B64 && Asks(env, events, f, topic, id, from)
    ensures AnswersAt(env, events, f.event)[f.call].code == 0
    ensures PageIn(env, events, f)
         == LogSpec.Fetch(LogIn(StateAt(env, events, f.event, f.call), topic, id), 0, from, f.count)
  {
    hide Iterates, Serve, BrokerAfter, Calls, DecodeFetchRequest, DecodeFetchResponse, Small, AllFit,
         IndexOf, OnFetch, LogSpec.Fetch, Numbered, OnProduce;
    var b, calls := BrokerAfter(env, events[..f.event]), Calls(events[f.event].input);
    var s := StateAt(env, events, f.event, f.call);
    SessionStart(env, events, f.event);
    AfterFits(env, events[..f.event]);
    CallsFramed(events[f.event].input);
    AnswerOf(env, b.served, b.state, calls, f.call);
    ServeFits(env, b.served, b.state, calls[..f.call]);
    ServeGrows(env, b.served, b.state, calls[..f.call]);
    ServePlaced(env, b.served, b.state, calls[..f.call]);
    PlacedAt(s, topic);
    FetchAnswers(s, b.served + f.call, calls[f.call].payload, topic, f.position, from, f.count);
  }

  /** Between two requests of a run the log of a partition only grows. */
  lemma LogBetween(env: Env, events: seq<BrokerEvent>, e: nat, j: nat, e': nat, j': nat, topic: bytes,
                   id: int)
    requires Iterates(env) && Visible(topic)
    requires e < |events| && events[e].Connect? && j <= |Calls(events[e].input)|
    requires e' < |events| && events[e'].Connect? && j' <= |Calls(events[e'].input)|
    requires !BrokerAfter(env, events[..e]).down && !BrokerAfter(env, events[..e']).down
    requires e < e' || (e == e' && j <= j')
    ensures LogIn(StateAt(env, events, e, j), topic, id) <= LogIn(StateAt(env, events, e', j'), topic, id)
  {
    hide Iterates, Serve, BrokerAfter, Calls, LogIn, Visible, Small, AllPlaced, Grows;
    if e == e' {
      SessionLogIn(env, events, e, j, j', topic, id);
    } else {
      var calls := Calls(events[e].input);
      SessionLogIn(env, events, e, j, |calls|, topic, id);
      SessionStart(env, events, e);
      assert calls[..|calls|] == calls;
      assert events[..e'][..e + 1] == events[..e + 1];
      RunLogIn(env, events[..e'], e + 1, topic, id);
      SessionLogIn(env, events, e', 0, j', topic, id);
      NothingAt(env, events, e');
    }
  }

  lemma NothingAt(env: Env, events: seq<BrokerEvent>, e: nat)
    requires Iterates(env) && e < |events| && events[e].Connect?
    ensures StateAt(env, events, e, 0) == BrokerAfter(env, events[..e]).state
  {
    hide Iterates, BrokerAfter, Serve;
    var b := BrokerAfter(env, events[..e]);
    NothingServed(env, b.served, b.state, Calls(events[e].input));
  }

  lemma SessionLogIn(env: Env, events: seq<BrokerEvent>, e: nat, j: nat, j': nat, topic: bytes, id: int)
    requires Iterates(env) && e < |events| && events[e].Connect?
    requires !BrokerAfter(env, events[..e]).down && j <= j' <= |Calls(events[e].input)|
    ensures LogIn(StateAt(env, events, e, j), topic, id) <= LogIn(StateAt(env, events, e, j'), topic, id)
  {
    hide Iterates, Serve, BrokerAfter, Calls, LogIn, Small, AllPlaced, Grows;
    var b, calls := BrokerAfter(env, events[..e]), Calls(events[e].input);
    SessionStart(env, events, e);
    assert calls[..j'][..j] == calls[..j];
    GrowsBehind(env, b.served, b.state, calls[..j'], j);
    ServePlaced(env, b.served, b.state, calls[..j]);
    ServePlaced(env, b.served, b.state, calls[..j']);
    if topic in StateAt(env, events, e, j).topics {
      IdsBehind(env, b.served, b.state, calls[..j'], j, topic);
    }
    SameIdsGrow(StateAt(env, events, e, j), StateAt(env, events, e, j'), topic, id);
  }

  lemma {:induction false} IdsBehind(env: Env, start: nat, s: State, calls: seq<Call>, n: nat, topic: bytes)
    requires Iterates(env) && AllPlaced(s) && n <= |calls|
    requires topic in Serve(env, start, s, calls[..n]).state.topics
    ensures topic in Serve(env, start, s, calls).state.topics
    ensures Serve(env, start, s, calls).state.topics[topic].ids
         == Serve(env, start, s, calls[..n]).state.topics[topic].ids
  {
    hide Iterates, Respond, AllPlaced;
    if n == |calls| {
      assert calls[..n] == calls;
    } else {
      var last := |calls| - 1;
      var q := calls[..last];
      assert q[..n] == calls[..n];
      IdsBehind(env, start, s, q, n, topic);
      ServePlaced(env, start, s, q);
      RespondPlaced(env, start + last, Serve(env, start, s, q).state, calls[last]);
    }
  }

  /** What a consumer has found so far. */
  ghost function Found(env: Env, events: seq<BrokerEvent>, fs: seq<Fetching>): seq<Message>
    requires Iterates(env)
  {
    if fs == [] then []
    else Found(env, events, fs[..|fs| - 1]) + PageIn(env, events, fs[|fs| - 1])
  }

  /** One answered fetch after the other, each from behind the last message found. */
  ghost predicate Follows(env: Env, events: seq<BrokerEvent>, fs: seq<Fetching>, topic: bytes, id: int,
                          start: nat)
    requires Iterates(env)
  {
    && (forall k :: 0 <= k < |fs|
          ==> Asks(env, events, fs[k], topic, id, AskFrom(start, Found(env, events, fs[..k]))))
    && forall k, l :: 0 <= k < l < |fs|
         ==> fs[k].event < fs[l].event || (fs[k].event == fs[l].event && fs[k].call < fs[l].call)
  }

  /** The log that a fetch reads. */
  ghost function LogAt(env: Env, events: seq<BrokerEvent>, f: Fetching, topic: bytes, id: int): Messages
    requires Iterates(env)
  {
    if Answerable(env, events, f) then LogIn(StateAt(env, events, f.event, f.call), topic, id) else []
  }

  ghost function LogsAt(env: Env, events: seq<BrokerEvent>, fs: seq<Fetching>, topic: bytes, id: int)
    : (logs: seq<Messages>)
    requires Iterates(env)
    ensures |logs| == |fs|
  {
    if fs == [] then []
    else
      LogsAt(env, events, fs[..|fs| - 1], topic, id) + [LogAt(env, events, fs[|fs| - 1], topic, id)]
  }

  lemma {:induction false} LogsAtEach(env: Env, events: seq<BrokerEvent>, fs: seq<Fetching>, topic: bytes,
                                      id: int, k: nat)
    requires Iterates(env) && k < |fs|
    ensures LogsAt(env, events, fs, topic, id)[k] == LogAt(env, events, fs[k], topic, id)
  {
    hide Iterates, LogAt;
    if k < |fs| - 1 {
      LogsAtEach(env, events, fs[..|fs| - 1], topic, id, k);
    }
  }

  function Counts(fs: seq<Fetching>): (counts: seq<int>)
    ensures |counts| == |fs|
  {
    if fs == [] then [] else Counts(fs[..|fs| - 1]) + [fs[|fs| - 1].count]
  }

  lemma FollowsLess(env: Env, events: seq<BrokerEvent>, fs: seq<Fetching>, topic: bytes, id: int, start: nat)
    requires Iterates(env) && fs != [] && Follows(env, events, fs, topic, id, start)
    ensures Follows(env, events, fs[..|fs| - 1], topic, id, start)
    ensures var last := |fs| - 1;
            Asks(env, events, fs[last], topic, id, AskFrom(start, Found(env, events, fs[..last])))
  {
    hide Iterates, Asks, Found;
    var q := fs[..|fs| - 1];
    assert forall k :: 0 <= k < |q| ==> q[..k] == fs[..k];
  }

  lemma AskedAnswer(env: Env, events: seq<BrokerEvent>, f: Fetching, topic: bytes, id: int, from: nat)
    requires Iterates(env) && Asks(env, events, f, topic, id, from)
    ensures Answerable(env, events, f) && !BrokerAfter(env, events[..f.event]).down
  {
    hide Iterates, BrokerAfter, Calls, AnswersAt, DecodeFetchRequest, StateAt;
  }

  lemma {:induction false} FoundIsPolled(env: Env, events: seq<BrokerEvent>, fs: seq<Fetching>,
                                         topic: bytes, id: int, start: nat)
    requires Iterates(env) && Requests(events) < B64 && Follows(env, events, fs, topic, id, start)
    ensures Found(env, events, fs) == Polled(LogsAt(env, events, fs, topic, id), Counts(fs), start)
  {
    hide Iterates, Follows, Asks, Answerable, PageIn, StateAt, Requests, LogSpec.Fetch, Polled, LogIn,
         AskFrom;
    if fs != [] {
      var last := |fs| - 1;
      var q := fs[..last];
      FollowsLess(env, events, fs, topic, id, start);
      FoundIsPolled(env, events, q, topic, id, start);
      var from := AskFrom(start, Found(env, events, q));
      AskedAnswer(env, events, fs[last], topic, id, from);
      PageFound(env, events, fs[last], topic, id, from);
      PolledMore(LogsAt(env, events, q, topic, id), Counts(q), start,
                 LogAt(env, events, fs[last], topic, id), fs[last].count);
    } else {
      NonePolled(start);
    }
  }

  lemma NonePolled(start: nat)
    ensures Polled([], [], start) == []
  {
  }

  lemma LogsGrowAt(env: Env, events: seq<BrokerEvent>, fs: seq<Fetching>, topic: bytes, id: int,
                   start: nat)
    requires Iterates(env) && Visible(topic) && Follows(env, events, fs, topic, id, start)
    ensures var logs := LogsAt(env, events, fs, topic, id);
            && (forall k, l :: 0 <= k <= l < |logs| ==> logs[k] <= logs[l])
            && forall k :: 0 <= k < |logs| ==> logs[k] <= LogIn(BrokerAfter(env, events).state, topic, id)
  {
    hide Iterates, Asks, BrokerAfter, StateAt, AnswersAt, Calls, Visible, LogIn, Found;
    forall k | 0 <= k < |fs|
      ensures Answerable(env, events, fs[k]) && !BrokerAfter(env, events[..fs[k].event]).down
    {
      AskedAnswer(env, events, fs[k], topic, id, AskFrom(start, Found(env, events, fs[..k])));
    }
    forall k | 0 <= k < |fs|
      ensures LogsAt(env, events, fs, topic, id)[k] == LogAt(env, events, fs[k], topic, id)
    {
      LogsAtEach(env, events, fs, topic, id, k);
    }
    forall k, l | 0 <= k <= l < |fs|
      ensures LogAt(env, events, fs[k], topic, id) <= LogAt(env, events, fs[l], topic, id)
    {
      LogBetween(env, events, fs[k].event, fs[k].call, fs[l].event, fs[l].call, topic, id);
    }
    forall k | 0 <= k < |fs|
      ensures LogAt(env, events, fs[k], topic, id) <= LogIn(BrokerAfter(env, events).state, topic, id)
    {
      LogUntil(env, events, fs[k].event, fs[k].call, topic, id);
    }
  }

  lemma LogUntil(env: Env, events: seq<BrokerEvent>, e: nat, j: nat, topic: bytes, id: int)
    requires Iterates(env) && Visible(topic)
    requires e < |events| && events[e].Connect? && j <= |Calls(events[e].input)|
    requires !BrokerAfter(env, events[..e]).down
    ensures LogIn(StateAt(env, events, e, j), topic, id) <= LogIn(BrokerAfter(env, events).state, topic, id)
  {
    hide Iterates, Serve, BrokerAfter, Calls, LogIn, Visible, Small, AllPlaced;
    var calls := Calls(events[e].input);
    SessionLogIn(env, events, e, j, |calls|, topic, id);
    SessionStart(env, events, e);
    assert calls[..|calls|] == calls;
    RunLogIn(env, events, e + 1, topic, id);
  }

  /**
    A consumer that fetches a partition over any number of connections and restarts, each time
    from behind the last message it has found, finds one gap-free stretch of the partition's
    log, each message once and in order, from where it started.
   */
  lemma ConsumerFindsStretch(env: Env, events: seq<BrokerEvent>, fs: seq<Fetching>, topic: bytes,
                             id: int, start: nat)
    requires Iterates(env) && (topic == [] || topic[0] != 0x2E) && Requests(events) < B64
    requires Follows(env, events, fs, topic, id, start)
    ensures var found := Found(env, events, fs);
            var log := LogIn(BrokerAfter(env, events).state, topic, id);
            found != [] ==> start + |found| <= |log| && found == Slice(log, 0, start, start + |found|)
  {
    hide Iterates, Follows, BrokerAfter, Requests, Visible, LogIn, Slice, LogAt, PageIn, LogsAt, Counts,
         Polled, AskFrom;
    if fs != [] {
      var logs := LogsAt(env, events, fs, topic, id);
      FoundIsPolled(env, events, fs, topic, id, start);
      LogsGrowAt(env, events, fs, topic, id, start);
      PolledStretch(logs, Counts(fs), start);
      var found := Found(env, events, fs);
      if found != [] {
        SliceExtends(logs[|logs| - 1], LogIn(BrokerAfter(env, events).state, topic, id), 0, start,
                     start + |found|);
      }
    }
  }
}
