/**
  What the answer to a commit is worth: a commit that was answered with code 0 survives every
  restart, until the next commit for its key.
 */
module CommitRuns {
  import opened Bytes
  import opened Protocol
  import opened Wire
  import opened Decimal
  import opened Paths
  import opened Restart
  import opened BrokerSpec
  import opened EndToEnd
  import opened Replies
  import opened BrokerRuns
  import opened RunLaws
  import GroupSpec

  /** Memory and disk have this offset for the key. */
  ghost predicate Held(s: State, g: bytes, t: bytes, p: int32, o: uint64) {
    GroupSpec.Lookup(s.groups.memory, g, t, p) == Some(o)
    && GroupSpec.Lookup(s.groups.disk, g, t, p) == Some(o)
  }

  /** Not a commit for this key, and no commit of a group whose id has a separator. */
  predicate Quiet(c: Call, g: bytes, t: bytes, p: int32) {
    var d := DecodeCommitOffsetRequest(c.payload);
    c.apiKey == 4 && d.Parsed? && d.value.CommitOffset?
    ==> OnePart(d.value.group) && (d.value.group, d.value.topic, d.value.partition) != (g, t, p)
  }

  /** A commit without a fault puts its offset into memory and onto disk. */
  lemma StepHolds(home: Path, s: GroupSpec.State, g: bytes, t: bytes, p: int64, o: uint64)
    requires OnePart(g)
    ensures var after := GroupSpec.Step(home, s, GroupSpec.Commit(g, t, p, o, GroupSpec.NoFault));
            GroupSpec.Lookup(after.memory, g, t, p) == GroupSpec.Lookup(after.disk, g, t, p) == Some(o)
  {
    hide FileOf, OnePart;
    OwnFile(home, g);
  }

  /** A commit for another key, of a group with a file of its own, leaves the offset alone. */
  lemma StepKeeps(home: Path, s: GroupSpec.State, g: bytes, t: bytes, p: int64, o: uint64,
                  g': bytes, t': bytes, p': int64, o': uint64, fault: GroupSpec.Fault)
    requires OnePart(g) && OnePart(g') && (g', t', p') != (g, t, p)
    requires GroupSpec.Lookup(s.memory, g, t, p) == GroupSpec.Lookup(s.disk, g, t, p) == Some(o)
    ensures var after := GroupSpec.Step(home, s, GroupSpec.Commit(g', t', p', o', fault));
            GroupSpec.Lookup(after.memory, g, t, p) == GroupSpec.Lookup(after.disk, g, t, p) == Some(o)
  {
    hide FileOf, OnePart, GroupSpec.With, GroupSpec.Lookup, GroupSpec.Elsewhere;
    GroupSpec.LookupWith(s.memory, g', t', p', o', g, t, p);
    GroupSpec.DiskOf(home, s, g', GroupSpec.With(GroupSpec.GroupOf(s.memory, g'), t', p', o'), g, t, p);
    if FileOf(home, g) == FileOf(home, g') {
      OwnFiles(home, g, g');
    }
  }

  lemma CommitHolds(env: Env, i: nat, s: State, c: Call, g: bytes, t: bytes, p: int32, o: uint64)
    requires Iterates(env) && c.apiKey == 4 && OnePart(g) && env.fault(i) == GroupSpec.NoFault
    requires DecodeCommitOffsetRequest(c.payload) == Parsed(CommitOffset(g, t, p, o))
    ensures Held(Respond(env, i, s, c).0, g, t, p, o)
  {
    hide Iterates, DecodeCommitOffsetRequest, GroupSpec.Step, GroupSpec.Lookup, OnePart;
    StepHolds(env.home, s.groups, g, t, p, o);
  }

  lemma RespondHolds(env: Env, i: nat, s: State, c: Call, g: bytes, t: bytes, p: int32, o: uint64)
    requires Iterates(env) && OnePart(g) && Held(s, g, t, p, o) && Quiet(c, g, t, p)
    ensures Held(Respond(env, i, s, c).0, g, t, p, o)
  {
    hide Iterates, DecodeCommitOffsetRequest, GroupSpec.Step, GroupSpec.Lookup, OnePart, OnProduce, OnFetch,
         OnCreateTopic, OnListTopics, OnFetchOffset;
    DecodedKinds(c.payload);
    OthersKeepGroups(env, i, s, c.payload);
    var d := DecodeCommitOffsetRequest(c.payload);
    if c.apiKey == 4 && d.Parsed? {
      StepKeeps(env.home, s.groups, g, t, p, o, d.value.group, d.value.topic, d.value.partition,
                d.value.offset, env.fault(i));
    }
  }

  lemma {:induction false} ServeHolds(env: Env, start: nat, s: State, calls: seq<Call>, n: nat,
                                      g: bytes, t: bytes, p: int32, o: uint64)
    requires Iterates(env) && OnePart(g) && n <= |calls|
    requires Held(Serve(env, start, s, calls[..n]).state, g, t, p, o)
    requires forall k :: n <= k < |calls| ==> Quiet(calls[k], g, t, p)
    ensures Held(Serve(env, start, s, calls).state, g, t, p, o)
  {
    hide Iterates, OnePart, Held, Quiet, Respond;
    if n == |calls| {
      assert calls[..n] == calls;
    } else {
      var last := |calls| - 1;
      var q := calls[..last];
      assert q[..n] == calls[..n];
      ServeHolds(env, start, s, q, n, g, t, p, o);
      if !Serve(env, start, s, q).crashed {
        RespondHolds(env, start + last, Serve(env, start, s, q).state, calls[last], g, t, p, o);
      }
    }
  }

  predicate QuietEvent(e: BrokerEvent, g: bytes, t: bytes, p: int32) {
    e.Connect? ==> forall k :: 0 <= k < |Calls(e.input)| ==> Quiet(Calls(e.input)[k], g, t, p)
  }

  lemma NextHolds(env: Env, b: Broker, e: BrokerEvent, g: bytes, t: bytes, p: int32, o: uint64)
    requires Iterates(env) && OnePart(g) && Held(b.state, g, t, p, o) && QuietEvent(e, g, t, p)
    ensures Held(Next(env, b, e).state, g, t, p, o)
  {
    hide Iterates, OnePart, Quiet, Serve, Calls, Ending, AnswersBytes, GroupSpec.Lookup, AllReloaded,
         VisibleOf;
    match e {
      case Reboot =>
      case Connect(input) =>
        if !b.down {
          NothingServed(env, b.served, b.state, Calls(input));
          ServeHolds(env, b.served, b.state, Calls(input), 0, g, t, p, o);
        }
    }
  }

  lemma {:induction false} RunHolds(env: Env, events: seq<BrokerEvent>, n: nat, g: bytes, t: bytes,
                                    p: int32, o: uint64)
    requires Iterates(env) && OnePart(g) && n <= |events|
    requires Held(BrokerAfter(env, events[..n]).state, g, t, p, o)
    requires forall k :: n <= k < |events| ==> QuietEvent(events[k], g, t, p)
    ensures Held(BrokerAfter(env, events).state, g, t, p, o)
  {
    hide Iterates, OnePart, Held, QuietEvent, Next;
    if n == |events| {
      assert events[..n] == events;
    } else {
      var q := events[..|events| - 1];
      assert q[..n] == events[..n];
      RunHolds(env, q, n, g, t, p, o);
      NextHolds(env, BrokerAfter(env, q), events[|events| - 1], g, t, p, o);
    }
  }

  /** Behind the session in which a commit was answered with code 0, its offset is held. */
  lemma SessionCommits(env: Env, start: nat, s: State, calls: seq<Call>, i: nat, g: bytes, t: bytes,
                       p: int32, o: uint64)
    requires Iterates(env) && OnePart(g) && i < |calls| && i < |Serve(env, start, s, calls).answers|
    requires calls[i].apiKey == 4 && Serve(env, start, s, calls).answers[i].code == 0
    requires DecodeCommitOffsetRequest(calls[i].payload) == Parsed(CommitOffset(g, t, p, o))
    requires forall k :: i < k < |calls| ==> Quiet(calls[k], g, t, p)
    ensures Held(Serve(env, start, s, calls).state, g, t, p, o)
  {
    hide Iterates, OnePart, Held, Quiet, Respond, Serve, DecodeCommitOffsetRequest;
    var before := Serve(env, start, s, calls[..i]).state;
    AnswerOf(env, start, s, calls, i);
    CommitReply(env, start + i, before, calls[i], g, t, p, o);
    CommitHolds(env, start + i, before, calls[i], g, t, p, o);
    ServeHolds(env, start, s, calls, i + 1, g, t, p, o);
  }

  /**
    In every run: a commit that was answered with code 0, of a group whose id has no separator,
    is what every later connection reads, across any number of restarts, as long as there is no
    further commit for its key and every group that commits has an id without a separator.
   */
  lemma CommitSurvives(env: Env, events: seq<BrokerEvent>, a: nat, i: nat, b: nat, j: nat, g: bytes,
                       t: bytes, p: int32, o: uint64)
    requires Iterates(env) && OnePart(g) && a < b < |events|
    requires events[a].Connect? && !BrokerAfter(env, events[..a]).down
    requires events[b].Connect? && !BrokerAfter(env, events[..b]).down
    requires var calls := Calls(events[a].input);
             && i < |calls| && i < |AnswersAt(env, events, a)| && calls[i].apiKey == 4
             && DecodeCommitOffsetRequest(calls[i].payload) == Parsed(CommitOffset(g, t, p, o))
             && AnswersAt(env, events, a)[i].code == 0
             && forall k :: i < k < |calls| ==> Quiet(calls[k], g, t, p)
    requires forall k :: a < k < b ==> QuietEvent(events[k], g, t, p)
    requires var calls := Calls(events[b].input);
             && j < |calls| && j < |AnswersAt(env, events, b)| && calls[j].apiKey == 5
             && DecodeFetchOffsetRequest(calls[j].payload) == Parsed(FetchOffset(g, t, p))
             && forall k :: 0 <= k < j ==> Quiet(calls[k], g, t, p)
    ensures var answer := AnswersAt(env, events, b)[j];
            && answer.id == Calls(events[b].input)[j].id && answer.code == 0 && |answer.payload| == 9
            && Get64(answer.payload[..8]) == o && answer.payload[8] == 1
  {
    hide Iterates, OnePart, Quiet, QuietEvent, Respond, Serve, BrokerAfter, Calls, Get64,
         DecodeCommitOffsetRequest, DecodeFetchOffsetRequest, GroupSpec.Lookup;
    var A, B := BrokerAfter(env, events[..a]), BrokerAfter(env, events[..b]);
    var calls := Calls(events[b].input);
    SessionStart(env, events, a);
    SessionCommits(env, A.served, A.state, Calls(events[a].input), i, g, t, p, o);
    assert events[..b][..a + 1] == events[..a + 1];
    RunHolds(env, events[..b], a + 1, g, t, p, o);
    NothingServed(env, B.served, B.state, calls);
    assert calls[..j][..0] == calls[..0];
    ServeHolds(env, B.served, B.state, calls[..j], 0, g, t, p, o);
    AnswerOf(env, B.served, B.state, calls, j);
    FetchOffsetReply(env, B.served + j, StateAt(env, events, b, j), calls[j], g, t, p);
  }

  // ---------- the outputs of a run ----------

  /** How many clients connect in a run. */
  function Connections(events: seq<BrokerEvent>): nat {
    if events == [] then 0
    else Connections(events[..|events| - 1]) + if events[|events| - 1].Connect? then 1 else 0
  }

  /**
    Each client of a run gets the answers of its own session, and nothing if the broker is down
    when it connects.
   */
  lemma {:induction false} OutputOf(env: Env, events: seq<BrokerEvent>, n: nat)
    requires Iterates(env) && n < |events| && events[n].Connect?
    ensures |BrokerAfter(env, events).outputs| == Connections(events)
    ensures Connections(events[..n]) < Connections(events)
    ensures BrokerAfter(env, events).outputs[Connections(events[..n])]
         == if BrokerAfter(env, events[..n]).down then [] else AnswersBytes(AnswersAt(env, events, n))
  {
    hide Iterates, Serve, Calls, Ending, AnswersBytes, RestartState;
    var last := |events| - 1;
    var q := events[..last];
    OutputCount(env, q);
    if n < last {
      assert q[..n] == events[..n];
      OutputOf(env, q, n);
    }
  }

  lemma {:induction false} OutputCount(env: Env, events: seq<BrokerEvent>)
    requires Iterates(env)
    ensures |BrokerAfter(env, events).outputs| == Connections(events)
  {
    hide Iterates, Serve, Calls, Ending, AnswersBytes, RestartState;
    if events != [] {
      OutputCount(env, events[..|events| - 1]);
    }
  }
}
