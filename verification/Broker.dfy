/**
  The broker as a process: starting it on empty directories, stopping and restarting it, and
  whole runs of connections and restarts.
 */
module Brokers {
  import opened Bytes
  import opened Outcomes
  import opened Files
  import opened Topics
  import opened Restart
  import opened Groups
  import opened Wire
  import opened BrokerSpec
  import opened BrokerRuns
  import opened Servers
  import GroupSpec

  /** A broker on empty directories. */
  method StartBroker(maxSegSize: int, codec: Codec, env: Env) returns (sv: Server)
    requires 1 <= maxSegSize <= B32 && Lossless(codec) && Iterates(env)
    ensures sv.Valid(Empty()) && sv.env == env
    ensures sv.topicMgr.maxSegSize == maxSegSize && sv.consumerMgr.codec == codec
    ensures forall o :: o in sv.Footprint() ==> fresh(o)
  {
    hide Iterates, Lossless, Manager.Valid;
    var root := new DataDir();
    var groupDir := new Directory();
    NothingPublished(codec, env.home);
    NoGroupsTextual();
    var topicMgr := new Manager(root, maxSegSize, env.hash);
    sv := OpenBroker(topicMgr, groupDir, codec, env, map[], Empty());
  }

  lemma ReachAllocated(topics: map<bytes, Topic>)
    ensures forall o: object :: o in Reach(topics) ==> allocated(o)
  {
  }

  /** The group manager and the server over a topic manager. */
  method OpenBroker(topicMgr: Manager, groupDir: Directory, codec: Codec, env: Env,
                    ghost disk: map<bytes, GroupSpec.Offsets>, ghost s: State)
    returns (sv: Server)
    requires topicMgr.hash == env.hash && Iterates(env) && Lossless(codec)
    requires groupDir !in topicMgr.Footprint()
    requires Published(groupDir.files, codec, env.home, disk) && TextualGroups(disk)
    requires s.groups == GroupSpec.State(disk, disk)
    ensures sv.topicMgr == topicMgr && sv.env == env
    ensures fresh(sv.consumerMgr) && sv.consumerMgr.dir == groupDir && sv.consumerMgr.codec == codec
    ensures sv.consumerMgr.groups == disk
    ensures old(topicMgr.Valid(s.topics)) ==> sv.Valid(s)
    ensures topicMgr.Footprint() == old(topicMgr.Footprint())
  {
    hide Manager.Valid, Manager.Footprint, Published, Iterates, Lossless, TextualGroups;
    topicMgr.Allocated();
    if topicMgr.Valid(s.topics) {
      topicMgr.Frame(s.topics);
    }
    var consumerMgr := NewGroupManager(groupDir, codec, env.home, disk);
    assert old(topicMgr.Valid(s.topics)) ==> topicMgr.Valid(s.topics);
    assert topicMgr.Footprint() == old(topicMgr.Footprint());
    sv := new Server(topicMgr, consumerMgr, env, s);
  }

  /**
    A broker stops in any state and another one starts on its directories: it serves the
    topics as they are reloaded and the published offsets.
   */
  method RestartBroker(root: DataDir, groupDir: Directory, maxSegSize: int, codec: Codec, env: Env,
                       ghost before: Server, ghost s: State)
    returns (after: Server)
    requires before.Valid(s) && Iterates(env) && Lossless(codec)
    requires before.topicMgr.root == root && before.topicMgr.maxSegSize == maxSegSize
    requires before.consumerMgr.dir == groupDir && before.consumerMgr.codec == codec
    requires before.env.home == env.home
    requires AllPlain(s.topics) && TextualGroups(s.groups.disk)
    modifies before.topicMgr.Objects()
    ensures after.env == env && after.topicMgr.root == root && after.topicMgr.maxSegSize == maxSegSize
    ensures after.consumerMgr.dir == groupDir && after.consumerMgr.codec == codec
    ensures after.topicMgr.topics.Keys == RestartState(s).topics.Keys
    ensures Loaded(after.topicMgr.topics, root.topics, RestartState(s).topics, maxSegSize)
    ensures after.consumerMgr.groups == RestartState(s).groups.memory
    ensures VisibleOf(s.topics.Keys) == s.topics.Keys ==> after.Valid(RestartState(s))
    ensures forall o :: o in after.Footprint() && o !in old(before.Footprint()) ==> fresh(o)
  {
    hide Manager.Valid, Manager.Footprint, Manager.Objects, Published, Iterates, Lossless, AllReloaded,
         VisibleOf, Loaded, TextualGroups, AllPlain;
    before.topicMgr.Frame(s.topics);
    before.topicMgr.Named(s.topics);
    ghost var t := RestartState(s);
    var topicMgr := NewManager(root, maxSegSize, env.hash, before.topicMgr, s.topics);
    assert groupDir !in topicMgr.Footprint();
    topicMgr.Allocated();
    ReachAllocated(topicMgr.topics);
    after := OpenBroker(topicMgr, groupDir, codec, env, s.groups.disk, t);
  }

  // ---------- runs ----------

  /** A server that is at this point of a run. */
  ghost predicate Reaches(sv: Server, max: int, codec: Codec, env: Env, b: Broker)
    reads sv.topicMgr, sv.topicMgr.root, sv.topicMgr.topics.Values, sv.topicMgr.Objects(),
          sv.topicMgr.Logs(), sv.consumerMgr, sv.consumerMgr.dir
  {
    && sv.Valid(b.state) && Sound(b) && Named(b.state)
    && sv.env == env && sv.topicMgr.maxSegSize == max && sv.consumerMgr.codec == codec
  }

  /** A client connects, sends its bytes and closes. */
  method Accept(sv: Server, served: nat, input: bytes, ghost s: State)
    returns (output: bytes, crashed: bool)
    requires sv.Valid(s) && Small(s, served) && served + |Calls(input)| + 1 < B64
    modifies sv.Footprint()
    ensures var r := Serve(sv.env, served, s, Calls(input));
            && sv.Valid(r.state) && output == AnswersBytes(r.answers)
            && (crashed <==> r.crashed || Ending(input) == Panic)
    ensures forall o :: o in sv.Footprint() && o !in old(sv.Footprint()) ==> fresh(o)
  {
    hide Manager.Valid, Manager.Footprint, Published, Small, Serve, Iterates, Calls, Ending, AnswersBytes;
    sv.Allocated();
    sv.topicMgr.Frame(s.topics);
    ghost var footprint := sv.Footprint();
    var conn := new Conn(input);
    assert sv.Footprint() == footprint;
    crashed := sv.HandleConnection(served, conn, s);
    sv.Allocated();
    output := conn.output;
    assert output == [] + AnswersBytes(Serve(sv.env, served, s, Calls(input)).answers);
  }

  /** A broker with its stored topics and offsets stops and starts again. */
  method Reopen(sv: Server, ghost b: Broker) returns (after: Server)
    requires Reaches(sv, sv.topicMgr.maxSegSize, sv.consumerMgr.codec, sv.env, b)
    requires Lossless(sv.consumerMgr.codec)
    modifies sv.Footprint()
    ensures Reaches(after, sv.topicMgr.maxSegSize, sv.consumerMgr.codec, sv.env, Next(sv.env, b, Reboot))
    ensures forall o :: o in after.Footprint() && o !in old(sv.Footprint()) ==> fresh(o)
  {
    hide Server.Valid, Server.Footprint, Iterates, Lossless, Sound, RestartState, VisibleOf, AllPlain,
         TextualGroups, Loaded;
    sv.EnvOf(b.state);
    sv.Owned(b.state);
    NextSound(sv.env, b, Reboot);
    NextNamed(sv.env, b, Reboot);
    RestartNamed(b.state);
    after := RestartBroker(sv.topicMgr.root, sv.consumerMgr.dir, sv.topicMgr.maxSegSize,
                           sv.consumerMgr.codec, sv.env, sv, b.state);
  }

  /** One event of a run. */
  method Advance(sv: Server, served: nat, down: bool, e: BrokerEvent, ghost b: Broker)
    returns (after: Server, served': nat, down': bool, outputs: seq<bytes>)
    requires Reaches(sv, sv.topicMgr.maxSegSize, sv.consumerMgr.codec, sv.env, b)
    requires Lossless(sv.consumerMgr.codec) && EventNamesWell(e)
    requires served == b.served && down == b.down
    requires e.Connect? ==> served + |Calls(e.input)| + 1 < B64
    modifies sv.Footprint()
    ensures var next := Next(sv.env, b, e);
            && Reaches(after, sv.topicMgr.maxSegSize, sv.consumerMgr.codec, sv.env, next)
            && served' == next.served && down' == next.down && b.outputs + outputs == next.outputs
    ensures forall o :: o in after.Footprint() && o !in old(sv.Footprint()) ==> fresh(o)
  {
    hide Server.Valid, Server.Footprint, Iterates, Lossless, Serve, Small, AllPlaced, Named,
         RestartState, Calls, Ending, AnswersBytes;
    sv.EnvOf(b.state);
    NextSound(sv.env, b, e);
    NextNamed(sv.env, b, e);
    after, served', down', outputs := sv, served, down, [];
    match e {
      case Reboot =>
        after := Reopen(sv, b);
        down' := false;
        assert b.outputs + [] == b.outputs;
      case Connect(input) =>
        if down {
          outputs := [[]];
        } else {
          var output, crashed := Accept(sv, served, input, b.state);
          served', down', outputs := served + |Calls(input)|, crashed, [output];
        }
    }
  }

  /**
    Every run of a broker that starts on empty directories, with any clients and any restarts:
    what each client gets is what the specification says.
   */
  method Run(maxSegSize: int, codec: Codec, env: Env, events: seq<BrokerEvent>)
    returns (outputs: seq<bytes>)
    requires 1 <= maxSegSize <= B32 && Lossless(codec) && Iterates(env)
    requires Requests(events) + 1 < B64
    requires forall i :: 0 <= i < |events| ==> EventNamesWell(events[i])
    ensures outputs == BrokerAfter(env, events).outputs
  {
    hide Reaches, Server.Footprint, Iterates, Lossless, Next, EventNamesWell, Requests;
    var sv := StartBroker(maxSegSize, codec, env);
    StartReaches(sv, maxSegSize, codec, env);
    var served, down := 0, false;
    outputs := [];
    var i := 0;
    while i < |events|
      invariant 0 <= i <= |events|
      invariant Reaches(sv, maxSegSize, codec, env, BrokerAfter(env, events[..i]))
      invariant served == BrokerAfter(env, events[..i]).served && down == BrokerAfter(env, events[..i]).down
      invariant outputs == BrokerAfter(env, events[..i]).outputs
      invariant forall o :: o in sv.Footprint() ==> fresh(o)
    {
      ghost var b := BrokerAfter(env, events[..i]);
      assert events[..i + 1][..i] == events[..i];
      ReachesFor(sv, maxSegSize, codec, env, b);
      RoomFor(env, events, i);
      var more;
      sv, served, down, more := Advance(sv, served, down, events[i], b);
      outputs := outputs + more;
      i := i + 1;
    }
    assert events[..i] == events;
  }

  lemma StartReaches(sv: Server, max: int, codec: Codec, env: Env)
    requires sv.Valid(Empty()) && sv.env == env
    requires sv.topicMgr.maxSegSize == max && sv.consumerMgr.codec == codec
    ensures Reaches(sv, max, codec, env, Broker(Empty(), 0, false, []))
  {
    hide Server.Valid;
    EmptySound();
    NoGroupsTextual();
  }

  lemma ReachesFor(sv: Server, max: int, codec: Codec, env: Env, b: Broker)
    requires Reaches(sv, max, codec, env, b)
    ensures sv.env == env && sv.topicMgr.maxSegSize == max && sv.consumerMgr.codec == codec
  {
    hide Server.Valid;
  }

  lemma RoomFor(env: Env, events: seq<BrokerEvent>, i: nat)
    requires Iterates(env) && i < |events| && Requests(events) + 1 < B64
    ensures events[i].Connect?
        ==> BrokerAfter(env, events[..i]).served + |Calls(events[i].input)| + 1 < B64
  {
    hide Iterates, Sound, Calls, BrokerAfter;
    AfterSound(env, events[..i]);
    RequestsGrow(events, i + 1);
    assert events[..i + 1][..i] == events[..i];
  }
}
