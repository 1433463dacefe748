/**
  The broker's connection loop and request handlers (broker/network/server.go) over the real
  topic manager, group manager and connection.
 */
module Servers {
  import opened Bytes
  import opened Outcomes
  import opened Record
  import opened Segments
  import opened TopicSpec
  import opened Topics
  import opened Groups
  import opened Protocol
  import opened Responses
  import opened Wire
  import opened BrokerSpec
  import opened EndToEnd
  import opened Paths
  import GroupSpec

  /** What a handler must write for a reply: one response, or nothing if it panicked. */
  ghost predicate Answered(before: bytes, after: bytes, ok: bool, id: uint32, reply: Reply) {
    match reply
    case Crashed => !ok && after == before
    case Replied(code, payload) => ok && after == before + AnswerBytes(Answer(id, code, payload))
  }

  datatype Round = Served | Closed | Panicked

  /** The two managers hold this broker state and share no object. */
  ghost predicate Holding(topicMgr: Manager, consumerMgr: GroupManager, env: Env, s: State)
    reads topicMgr, topicMgr.root, topicMgr.topics.Values, topicMgr.Objects(), topicMgr.Logs(),
          consumerMgr, consumerMgr.dir
  {
    && topicMgr.Valid(s.topics) && topicMgr.hash == env.hash
    && consumerMgr !in topicMgr.Footprint() && consumerMgr.dir !in topicMgr.Footprint()
    && consumerMgr.groups == s.groups.memory && consumerMgr.home == env.home
    && Published(consumerMgr.dir.files, consumerMgr.codec, env.home, s.groups.disk)
    && Iterates(env)
  }

  class Server {
    const topicMgr: Manager
    const consumerMgr: GroupManager
    const env: Env

    ghost function Footprint(): set<object>
      reads topicMgr, topicMgr.topics.Values
    {
      topicMgr.Footprint() + {consumerMgr, consumerMgr.dir}
    }

    /** The objects hold this broker state. */
    ghost predicate Valid(s: State)
      reads topicMgr, topicMgr.root, topicMgr.topics.Values, topicMgr.Objects(), topicMgr.Logs(),
            consumerMgr, consumerMgr.dir
    {
      Holding(topicMgr, consumerMgr, env, s)
    }

    constructor (topicMgr: Manager, consumerMgr: GroupManager, env: Env, ghost s: State)
      ensures this.topicMgr == topicMgr && this.consumerMgr == consumerMgr && this.env == env
      ensures old(Holding(topicMgr, consumerMgr, env, s)) ==> Valid(s)
    {
      hide Manager.Valid, Manager.Footprint, Published, Iterates;
      if Holding(topicMgr, consumerMgr, env, s) {
        topicMgr.Frame(s.topics);
      }
      this.topicMgr, this.consumerMgr, this.env := topicMgr, consumerMgr, env;
    }

    /** The objects of the topics are among those of the server. */
    lemma Owned(s: State)
      requires Valid(s)
      ensures topicMgr.Objects() <= Footprint() && consumerMgr.dir in Footprint()
    {
      hide Manager.Valid, Published, Iterates;
    }

    lemma EnvOf(s: State)
      requires Valid(s)
      ensures Iterates(env)
    {
    }

    lemma Allocated()
      ensures forall o: object :: o in Footprint() ==> allocated(o)
    {
    }

    /** WriteResponse, which changes nothing but the connection. */
    method Send(conn: Conn, id: uint32, code: uint16, payload: bytes, ghost s: State)
      requires Valid(s) && conn !in Footprint()
      modifies conn`output
      ensures Valid(s) && Footprint() == old(Footprint())
      ensures conn.output == old(conn.output) + AnswerBytes(Answer(id, code, payload))
    {
      hide Manager.Valid, Published, Iterates, AnswerBytes;
      topicMgr.Frame(s.topics);
      conn.WriteResponse(id, code, payload);
    }

    method HandleProduce(i: nat, id: uint32, payload: bytes, conn: Conn, ghost s: State)
      returns (ok: bool)
      requires Valid(s) && conn !in Footprint()
      requires Small(s, i) && i + 1 < B64 && 6 + |payload| < B32
      modifies Footprint(), conn`output
      ensures fresh(Footprint() - old(Footprint()))
      ensures Valid(OnProduce(env, i, s, payload).0)
      ensures Answered(old(conn.output), conn.output, ok, id, OnProduce(env, i, s, payload).1)
    {
      hide Manager.Valid, Manager.Footprint, Published, Iterates,
           AnswerBytes, DecodeProduceRequest, ProduceNext, ProduceReply, Fits, Put32, Put64;
      FrameFits(payload);
      var d := DecodeProduceRequest(payload);
      match d {
        case Crash => return false;
        case Refused =>
          Send(conn, id, INVALID_REQUEST, [], s);
          return true;
        case Parsed(request) =>
          var m := TopicSpec.Produced.Produced(env.clock(i), request.key, request.value);
          topicMgr.Frame(s.topics);
          var r := topicMgr.Produce(request.topic, m, s.topics);
          ghost var s' := OnProduce(env, i, s, payload).0;
          match r {
            case Panic => return false;
            case Err(_) =>
              Send(conn, id, INTERNAL, [], s');
              return true;
            case Ok((partition, offset)) =>
              topicMgr.Frame(s'.topics);
              var resp := EncodeProduceResponse(Signed32(partition % B32), offset % B64);
              Send(conn, id, NONE, resp, s');
              return true;
          }
      }
    }

    method SendMessages(conn: Conn, id: uint32, ms: seq<Message>, ghost s: State)
      requires Valid(s) && conn !in Footprint()
      modifies conn`output
      ensures Valid(s) && Footprint() == old(Footprint())
      ensures conn.output == old(conn.output) + AnswerBytes(Answer(id, NONE, FetchBytes(ms)))
    {
      hide Manager.Valid, Manager.Footprint, Published, Iterates, AnswerBytes, FetchBytes;
      topicMgr.Frame(s.topics);
      var resp := EncodeFetchResponse(ms);
      Send(conn, id, NONE, resp, s);
    }

    method HandleFetch(id: uint32, payload: bytes, conn: Conn, ghost s: State) returns (ok: bool)
      requires Valid(s) && conn !in Footprint()
      modifies Footprint(), conn`output
      ensures Valid(s) && fresh(Footprint() - old(Footprint()))
      ensures Answered(old(conn.output), conn.output, ok, id, OnFetch(s, payload))
    {
      hide Manager.Valid, Manager.Footprint, Published, Iterates, AnswerBytes, DecodeFetchRequest,
           ConsumeReply, FetchBytes;
      DecodedKinds(payload);
      var d := DecodeFetchRequest(payload);
      match d {
        case Crash => return false;
        case Refused =>
          Send(conn, id, INVALID_REQUEST, [], s);
          return true;
        case Parsed(request) =>
          topicMgr.Frame(s.topics);
          var r := topicMgr.Consume(request.topic, request.partition, request.offset,
                                    request.maxCount, s.topics);
          match r {
            case Panic => return false;
            case Err(_) =>
              Send(conn, id, UNKNOWN_TOPIC, [], s);
              return true;
            case Ok(ms) =>
              SendMessages(conn, id, ms, s);
              return true;
          }
      }
    }

    method HandleCreateTopic(id: uint32, payload: bytes, conn: Conn, ghost s: State)
      returns (ok: bool)
      requires Valid(s) && conn !in Footprint()
      modifies Footprint(), conn`output
      ensures fresh(Footprint() - old(Footprint()))
      ensures Valid(OnCreateTopic(s, payload).0)
      ensures Answered(old(conn.output), conn.output, ok, id, OnCreateTopic(s, payload).1)
    {
      hide Manager.Valid, Manager.Footprint, Published, Iterates, AnswerBytes,
           DecodeCreateTopicRequest, NewTopic;
      DecodedKinds(payload);
      var d := DecodeCreateTopicRequest(payload);
      match d {
        case Crash => return false;
        case Refused =>
          Send(conn, id, INVALID_REQUEST, [], s);
          return true;
        case Parsed(request) =>
          topicMgr.Frame(s.topics);
          var r := topicMgr.CreateTopic(request.topic, request.numPartitions, s.topics);
          var code := if r.Err? then TOPIC_EXISTS else NONE;
          Send(conn, id, code, [], OnCreateTopic(s, payload).0);
          return true;
      }
    }

    method HandleListTopics(i: nat, id: uint32, conn: Conn, ghost s: State) returns (ok: bool)
      requires Valid(s) && conn !in Footprint()
      modifies conn`output
      ensures Valid(s) && Footprint() == old(Footprint())
      ensures Answered(old(conn.output), conn.output, ok, id, OnListTopics(env, i, s))
    {
      hide Manager.Valid, Manager.Footprint, Published, AnswerBytes, Counted;
      topicMgr.Frame(s.topics);
      topicMgr.Named(s.topics);
      var topics := topicMgr.ListTopics(env.order(i, topicMgr.topics.Keys), s.topics);
      var buf := EncodeTopicList(topics);
      Send(conn, id, NONE, buf, s);
      return true;
    }

    /** The group manager's part of a commit leaves the topics alone. */
    method Commit(g: bytes, t: bytes, p: int64, o: uint64, fault: GroupSpec.Fault, ghost s: State)
      returns (written: bool)
      requires Valid(s)
      modifies consumerMgr, consumerMgr.dir
      ensures Footprint() == old(Footprint()) && (written <==> fault == GroupSpec.NoFault)
      ensures Valid(s.(groups := GroupSpec.Step(env.home, s.groups, GroupSpec.Commit(g, t, p, o, fault))))
    {
      hide Manager.Valid, Manager.Footprint, Published, Iterates, GroupSpec.SnapshotOf, FilesAfter,
           GroupSpec.With, FileOf;
      topicMgr.Frame(s.topics);
      CommitPublishes(consumerMgr.dir.files, consumerMgr.codec, env.home, s.groups, g, t, p, o, fault);
      written := consumerMgr.CommitOffset(g, t, p, o, fault);
    }

    method HandleCommitOffset(i: nat, id: uint32, payload: bytes, conn: Conn, ghost s: State)
      returns (ok: bool)
      requires Valid(s) && conn !in Footprint()
      modifies consumerMgr, consumerMgr.dir, conn`output
      ensures Footprint() == old(Footprint())
      ensures Valid(OnCommitOffset(env, i, s, payload).0)
      ensures Answered(old(conn.output), conn.output, ok, id, OnCommitOffset(env, i, s, payload).1)
    {
      hide Manager.Valid, Manager.Footprint, Published, Iterates, AnswerBytes,
           DecodeCommitOffsetRequest, GroupSpec.Step;
      DecodedKinds(payload);
      var d := DecodeCommitOffsetRequest(payload);
      match d {
        case Crash => return false;
        case Refused =>
          Send(conn, id, INVALID_REQUEST, [], s);
          return true;
        case Parsed(request) =>
          var written := Commit(request.group, request.topic, request.partition, request.offset,
                                env.fault(i), s);
          Send(conn, id, if written then NONE else INTERNAL, [], OnCommitOffset(env, i, s, payload).0);
          return true;
      }
    }

    method HandleFetchOffset(id: uint32, payload: bytes, conn: Conn, ghost s: State)
      returns (ok: bool)
      requires Valid(s) && conn !in Footprint()
      modifies conn`output
      ensures Valid(s) && Footprint() == old(Footprint())
      ensures Answered(old(conn.output), conn.output, ok, id, OnFetchOffset(s, payload))
    {
      hide Manager.Valid, Manager.Footprint, Published, Iterates, AnswerBytes,
           DecodeFetchOffsetRequest, GroupSpec.Lookup;
      DecodedKinds(payload);
      var d := DecodeFetchOffsetRequest(payload);
      match d {
        case Crash => return false;
        case Refused =>
          Send(conn, id, INVALID_REQUEST, [], s);
          return true;
        case Parsed(request) =>
          topicMgr.Frame(s.topics);
          var offset, found := consumerMgr.GetOffset(request.group, request.topic, request.partition);
          var buf := EncodeOffset(offset, found);
          Send(conn, id, NONE, buf, s);
          return true;
      }
    }

    /** The switch of handleConnection: request i, dispatched on its API key. */
    method Dispatch(i: nat, c: Call, conn: Conn, ghost s: State) returns (ok: bool)
      requires Valid(s) && conn !in Footprint()
      requires Small(s, i) && i + 1 < B64 && Framed(c)
      modifies Footprint(), conn`output
      ensures fresh(Footprint() - old(Footprint()))
      ensures Valid(Respond(env, i, s, c).0)
      ensures Answered(old(conn.output), conn.output, ok, c.id, Respond(env, i, s, c).1)
    {
      hide OnProduce, OnFetch, OnCreateTopic, OnListTopics, OnCommitOffset, OnFetchOffset, Answered,
           Iterates, Manager.Valid, Manager.Footprint, Published, Small;
      if c.apiKey == PRODUCE {
        ok := HandleProduce(i, c.id, c.payload, conn, s);
      } else if c.apiKey == FETCH {
        ok := HandleFetch(c.id, c.payload, conn, s);
      } else if c.apiKey == CREATE_TOPIC {
        ok := HandleCreateTopic(c.id, c.payload, conn, s);
      } else if c.apiKey == LIST_TOPICS {
        ok := HandleListTopics(i, c.id, conn, s);
      } else if c.apiKey == COMMIT_OFFSET {
        ok := HandleCommitOffset(i, c.id, c.payload, conn, s);
      } else if c.apiKey == FETCH_OFFSET {
        ok := HandleFetchOffset(c.id, c.payload, conn, s);
      } else {
        Send(conn, c.id, INVALID_REQUEST, [], s);
        ok := true;
        Refusal(old(conn.output), conn.output, c.id);
      }
    }

    /** One round of handleConnection: reads a request, if there is one, and answers it. */
    method ServeOne(i: nat, conn: Conn, ghost s: State) returns (round: Round)
      requires Valid(s) && conn !in Footprint()
      requires Small(s, i) && i + 1 < B64
      modifies Footprint(), conn
      ensures fresh(Footprint() - old(Footprint()))
      ensures match NextCall(old(conn.input))
              case Ok((c, rest)) =>
                && conn.input == rest && Valid(Respond(env, i, s, c).0) && round != Closed
                && Answered(old(conn.output), conn.output, round == Served, c.id,
                            Respond(env, i, s, c).1)
              case Err(_) => round == Closed && Valid(s) && conn.output == old(conn.output)
              case Panic => round == Panicked && Valid(s) && conn.output == old(conn.output)
    {
      hide Respond, Answered, Small, Iterates, Manager.Valid, Manager.Footprint, Published;
      NextFramed(conn.input);
      topicMgr.Frame(s.topics);
      var r := conn.ReadRequest();
      match r {
        case Err(_) => return Closed;
        case Panic => return Panicked;
        case Ok(c) =>
          assert Footprint() == old(Footprint());
          var ok := Dispatch(i, c, conn, s);
          assert conn.input == NextCall(old(conn.input)).value.1;
          assert Valid(Respond(env, i, s, c).0);
          assert Answered(old(conn.output), conn.output, ok, c.id, Respond(env, i, s, c).1);
          round := if ok then Served else Panicked;
          Allocated();
      }
    }

    /**
      handleConnection: whatever the client sent, the requests in front of the first broken
      frame or panic are served in order, and their answers are all that is written.
     */
    method HandleConnection(start: nat, conn: Conn, ghost s: State) returns (crashed: bool)
      requires Valid(s) && conn !in Footprint()
      requires Small(s, start) && start + |Calls(conn.input)| + 1 < B64
      modifies Footprint(), conn
      ensures var r := Serve(env, start, s, Calls(old(conn.input)));
              && Valid(r.state) && fresh(Footprint() - old(Footprint()))
              && conn.output == old(conn.output) + AnswersBytes(r.answers)
              && (crashed <==> r.crashed || Ending(old(conn.input)) == Panic)
    {
      hide Respond, Small, Iterates, Valid, Footprint, AnswerBytes, AnswersBytes, NextCall, Serve;
      EnvOf(s);
      ghost var calls := Calls(conn.input);
      ghost var n, at := 0, Session(s, [], false);
      var i := start;
      ServeNone(env, start, s, calls);
      assert conn.output == old(conn.output) + [];
      while true
        invariant n <= |calls| && i == start + n && calls[n..] == Calls(conn.input)
        invariant Ending(conn.input) == Ending(old(conn.input))
        invariant at == Serve(env, start, s, calls[..n]) && !at.crashed
        invariant Valid(at.state) && Small(at.state, i)
        invariant fresh(Footprint() - old(Footprint())) && conn !in Footprint()
        invariant conn.output == old(conn.output) + AnswersBytes(at.answers)
        decreases |conn.input|
      {
        NextCalls(conn.input);
        ghost var next, before := NextCall(conn.input), at;
        ghost var fp := Footprint();
        var round := ServeOne(i, conn, at.state);
        Allocated();
        if next.Ok? {
          assert calls[n] == next.value.0 && calls[n + 1..] == calls[n..][1..];
          ServeSnoc(env, start, s, calls, n);
          ServeGrows(env, start, s, calls[..n + 1]);
          at := Serve(env, start, s, calls[..n + 1]);
          if round == Panicked {
            CrashStays(env, start, s, calls, n + 1);
          } else {
            AnswersSnoc(before.answers, at.answers[|before.answers|]);
          }
        } else {
          assert calls[..n] == calls;
        }
        if round != Served {
          return round == Panicked;
        }
        n, i := n + 1, i + 1;
      }
    }
  }

  lemma Refusal(before: bytes, after: bytes, id: uint32)
    requires after == before + AnswerBytes(Answer(id, INVALID_REQUEST, []))
    ensures Answered(before, after, true, id, Replied(INVALID_REQUEST, []))
  {
  }

  lemma ServeNone(env: Env, start: nat, s: State, calls: seq<Call>)
    requires Iterates(env)
    ensures Serve(env, start, s, calls[..0]) == Session(s, [], false) && AnswersBytes([]) == []
  {
  }

  lemma NextFramed(input: bytes)
    ensures match NextCall(input)
            case Ok((c, rest)) => Framed(c)
            case _ => true
  {
    hide Get16, Get32;
  }

  /** The next request in front of the rest of them. */
  lemma NextCalls(input: bytes)
    ensures match NextCall(input)
            case Ok((c, rest)) =>
              && Framed(c) && |rest| < |input|
              && Calls(input) == [c] + Calls(rest) && Ending(input) == Ending(rest)
            case Err(e) => Calls(input) == [] && Ending(input) == Err(e)
            case Panic => Calls(input) == [] && Ending(input) == Panic
  {
    hide Get16, Get32;
  }

  /** The nine bytes of handleFetchOffset. */
  method EncodeOffset(offset: uint64, found: bool) returns (r: bytes)
    ensures r == OffsetBytes(offset, found)
  {
    hide Put64, Filled;
    var buf := new byte[9](_ => 0);
    FilledStart(buf);
    Emit(buf, 0, Put64(offset), []);
    assert [] + Put64(offset) == Put64(offset);
    Emit(buf, 8, [if found then 1 else 0], Put64(offset));
    FilledWhole(buf, OffsetBytes(offset, found));
    return buf[..];
  }
}
