/**
  Consumer group offsets as values (broker/consumer/group.go): the snapshot a commit writes,
  its round trip through string keys, and what a run of commits, faults and restarts leaves
  in memory and on disk.
 */
module GroupSpec {
  import opened Bytes
  import opened Decimal
  import opened Paths

  type Offsets = map<bytes, map<int64, uint64>>   // topic -> partition -> offset

  /** groupJSON: partitions are keyed by their decimal text. */
  datatype Snapshot = Snapshot(id: bytes, offsets: map<bytes, map<string, uint64>>)

  lemma ItoaInjective()
    ensures forall p: int64, q: int64 :: Itoa(p) == Itoa(q) ==> p == q
  {
    hide Itoa, Atoi;
    forall p: int64, q: int64 | Itoa(p) == Itoa(q)
      ensures p == q
    {
      ItoaRoundTrip(p);
      ItoaRoundTrip(q);
    }
  }

  function TextKeys(m: map<int64, uint64>): (r: map<string, uint64>) {
    ItoaInjective();
    map p: int64 | p in m :: Itoa(p) := m[p]
  }

  function SnapshotOf(id: bytes, offsets: Offsets): Snapshot {
    Snapshot(id, map t | t in offsets :: TextKeys(offsets[t]))
  }

  /** Parsing the keys back gives the same partitions. */
  ghost predicate Parses(r: map<string, uint64>, m: map<int64, uint64>) {
    && (forall s :: s in r && Atoi(s).Some? ==> Atoi(s).value in m)
    && (forall p :: p in m ==> exists s :: s in r && Atoi(s) == Some(p) && m[p] == r[s])
  }

  lemma TextKeyIn(m: map<int64, uint64>, p: int64)
    requires p in m
    ensures Itoa(p) in TextKeys(m) && TextKeys(m)[Itoa(p)] == m[p]
  {
    hide Itoa;
    ItoaInjective();
  }

  lemma TextKeyOf(m: map<int64, uint64>, s: string) returns (p: int64)
    requires s in TextKeys(m)
    ensures p in m && s == Itoa(p) && TextKeys(m)[s] == m[p]
  {
    hide Itoa;
    ItoaInjective();
    p :| p in m && s == Itoa(p);
  }

  lemma TextKeysParse(m: map<int64, uint64>, back: map<int64, uint64>)
    requires Parses(TextKeys(m), back)
    ensures back == m
  {
    hide Itoa, Atoi, TextKeys;
    forall p: int64 | p in m
      ensures p in back
    {
      ItoaRoundTrip(p);
      TextKeyIn(m, p);
    }
    forall p | p in back
      ensures p in m && back[p] == m[p]
    {
      var s :| s in TextKeys(m) && Atoi(s) == Some(p) && back[p] == TextKeys(m)[s];
      var q := TextKeyOf(m, s);
      ItoaRoundTrip(q);
    }
  }

  // ---------- lookups and updates ----------

  function GroupOf(groups: map<bytes, Offsets>, g: bytes): Offsets {
    if g in groups then groups[g] else map[]
  }

  function With(offsets: Offsets, t: bytes, p: int64, o: uint64): Offsets {
    var partitions := if t in offsets then offsets[t] else map[];
    offsets[t := partitions[p := o]]
  }

  function Lookup(groups: map<bytes, Offsets>, g: bytes, t: bytes, p: int64): Option<uint64> {
    if g in groups && t in groups[g] && p in groups[g][t] then Some(groups[g][t][p]) else None
  }

  lemma LookupWith(groups: map<bytes, Offsets>, g: bytes, t: bytes, p: int64, o: uint64,
                   g': bytes, t': bytes, p': int64)
    ensures Lookup(groups[g := With(GroupOf(groups, g), t, p, o)], g', t', p')
         == if (g', t', p') == (g, t, p) then Some(o) else Lookup(groups, g', t', p')
  {
  }

  // ---------- runs ----------

  /** Where a commit can stop: before the temporary file, after a part of it, before the rename. */
  datatype Fault = NoFault | OpenFails | WriteStops(written: nat) | RenameFails

  /** A crash is a fault, or none, followed by a restart. */
  datatype Event =
    | Commit(group: bytes, topic: bytes, partition: int64, offset: uint64, fault: Fault)
    | Restart

  datatype State = State(memory: map<bytes, Offsets>, disk: map<bytes, Offsets>)

  /** The groups whose file is not the one of g. */
  function Elsewhere(home: Path, disk: map<bytes, Offsets>, g: bytes): map<bytes, Offsets> {
    map h | h in disk && FileOf(home, h) != FileOf(home, g) :: disk[h]
  }

  /** A commit that goes through replaces the file of its group, whosever snapshot that held. */
  predicate Replaces(home: Path, e: Event, g: bytes) {
    e.Commit? && e.fault == NoFault
    && FileOf(home, e.group).Some? && FileOf(home, e.group) == FileOf(home, g)
  }

  function Reopened(s: State): State { State(s.disk, s.disk) }

  function Step(home: Path, s: State, e: Event): State {
    match e
    case Restart => Reopened(s)
    case Commit(g, t, p, o, fault) =>
      var offsets := With(GroupOf(s.memory, g), t, p, o);
      State(s.memory[g := offsets],
            if Replaces(home, e, g) then Elsewhere(home, s.disk, g)[g := offsets] else s.disk)
  }

  function After(home: Path, events: seq<Event>): State {
    if events == [] then State(map[], map[])
    else Step(home, After(home, events[..|events| - 1]), events[|events| - 1])
  }

  /** The offset a reader must get, told from the events alone. */
  ghost function Visible(home: Path, events: seq<Event>, g: bytes, t: bytes, p: int64): Option<uint64>
    decreases |events|, 0
  {
    if events == [] then None
    else
      var before := events[..|events| - 1];
      match events[|events| - 1]
      case Restart => Durable(home, before, g, t, p)
      case Commit(g', t', p', o, _) =>
        if (g', t', p') == (g, t, p) then Some(o) else Visible(home, before, g, t, p)
  }

  /**
    The offset that would survive a crash now: the visible one as of the last commit that
    replaced the group's file, if that was a commit of the group itself.
   */
  ghost function Durable(home: Path, events: seq<Event>, g: bytes, t: bytes, p: int64): Option<uint64>
    decreases |events|, 1
  {
    if events == [] then None
    else
      var last := events[|events| - 1];
      if !Replaces(home, last, g) then Durable(home, events[..|events| - 1], g, t, p)
      else if last.group == g then Visible(home, events, g, t, p) else None
  }

  /** Memory shows the visible offset and disk the durable one, after every run. */
  lemma {:induction false} LookupsAfter(home: Path, events: seq<Event>, g: bytes, t: bytes, p: int64)
    ensures Lookup(After(home, events).memory, g, t, p) == Visible(home, events, g, t, p)
    ensures Lookup(After(home, events).disk, g, t, p) == Durable(home, events, g, t, p)
  {
    hide Lookup, With, FileOf, Elsewhere;
    if events != [] {
      var before := events[..|events| - 1];
      var s := After(home, before);
      LookupsAfter(home, before, g, t, p);
      match events[|events| - 1] {
        case Restart =>
        case Commit(g', t', p', o, fault) =>
          LookupWith(s.memory, g', t', p', o, g, t, p);
          DiskOf(home, s, g', With(GroupOf(s.memory, g'), t', p', o), g, t, p);
      }
    } else {
      LookupNone(g, t, p);
    }
  }

  lemma LookupNone(g: bytes, t: bytes, p: int64)
    ensures Lookup(map[], g, t, p) == None
  {
  }

  lemma DiskOf(home: Path, s: State, g': bytes, offsets: Offsets, g: bytes, t: bytes, p: int64)
    ensures Lookup(Elsewhere(home, s.disk, g')[g' := offsets], g, t, p)
         == if g == g' then Lookup(s.memory[g' := offsets], g, t, p)
            else if FileOf(home, g) == FileOf(home, g') then None
            else Lookup(s.disk, g, t, p)
  {
    hide FileOf;
  }

  // ---------- what a restart keeps ----------

  predicate Faultless(events: seq<Event>) {
    forall i :: 0 <= i < |events| && events[i].Commit? ==> events[i].fault == NoFault
  }

  /** The last commit to the file of g was its own. */
  predicate Owns(home: Path, events: seq<Event>, g: bytes) {
    events != []
    && var last := events[|events| - 1];
       if Replaces(home, last, g) then last.group == g else Owns(home, events[..|events| - 1], g)
  }

  /**
    Without faults a restart keeps the offsets of a group if and only if the last commit to
    its file was its own: otherwise it has none.
   */
  lemma RestartExact(home: Path, events: seq<Event>, g: bytes, t: bytes, p: int64)
    requires Faultless(events)
    ensures Visible(home, events + [Restart], g, t, p)
         == Durable(home, events, g, t, p)
         == if Owns(home, events, g) then Visible(home, events, g, t, p) else None
  {
    hide FileOf;
    assert (events + [Restart])[..|events|] == events;
    DurableExact(home, events, g, t, p);
  }

  lemma {:induction false} DurableExact(home: Path, events: seq<Event>, g: bytes, t: bytes, p: int64)
    requires Faultless(events)
    ensures Durable(home, events, g, t, p)
         == if Owns(home, events, g) then Visible(home, events, g, t, p) else None
  {
    hide FileOf;
    if events != [] {
      DurableExact(home, events[..|events| - 1], g, t, p);
      NoFileNoOwner(home, events[..|events| - 1], g);
    }
  }

  lemma {:induction false} NoFileNoOwner(home: Path, events: seq<Event>, g: bytes)
    ensures FileOf(home, g) == None ==> !Owns(home, events, g)
  {
    hide FileOf;
    if events != [] {
      NoFileNoOwner(home, events[..|events| - 1], g);
    }
  }

  /** The last commit for a key, whatever became of it. */
  ghost function Latest(events: seq<Event>, g: bytes, t: bytes, p: int64): Option<uint64> {
    if events == [] then None
    else
      match events[|events| - 1]
      case Commit(g', t', p', o, _) =>
        if (g', t', p') == (g, t, p) then Some(o) else Latest(events[..|events| - 1], g, t, p)
      case Restart => Latest(events[..|events| - 1], g, t, p)
  }

  /** No other group of these events has the file of g, and g has one. */
  ghost predicate Alone(home: Path, events: seq<Event>, g: bytes) {
    FileOf(home, g).Some?
    && forall i :: 0 <= i < |events| && events[i].Commit?
         ==> FileOf(home, events[i].group) != FileOf(home, g) || events[i].group == g
  }

  /** Groups whose ids have no separator are alone. */
  lemma OnePartAlone(home: Path, events: seq<Event>, g: bytes)
    requires OnePart(g) && forall i :: 0 <= i < |events| && events[i].Commit? ==> OnePart(events[i].group)
    ensures Alone(home, events, g)
  {
    hide FileOf, OnePart;
    OwnFile(home, g);
    forall i | 0 <= i < |events| && events[i].Commit? && FileOf(home, events[i].group) == FileOf(home, g)
      ensures events[i].group == g
    {
      OwnFiles(home, events[i].group, g);
    }
  }

  /**
    Without faults every read of a group that is alone with its file gives the latest commit,
    across any number of restarts.
   */
  lemma {:induction false} NoFaultsLatest(home: Path, events: seq<Event>, g: bytes, t: bytes, p: int64)
    requires Faultless(events) && Alone(home, events, g)
    ensures Visible(home, events, g, t, p) == Latest(events, g, t, p) == Durable(home, events, g, t, p)
  {
    hide FileOf;
    if events != [] {
      NoFaultsLatest(home, events[..|events| - 1], g, t, p);
    }
  }

  /** Without a restart every read gives the latest commit, even one that returned an error. */
  lemma {:induction false} NoRestartLatest(home: Path, events: seq<Event>, g: bytes, t: bytes, p: int64)
    requires forall i :: 0 <= i < |events| ==> events[i].Commit?
    ensures Visible(home, events, g, t, p) == Latest(events, g, t, p)
  {
    if events != [] {
      NoRestartLatest(home, events[..|events| - 1], g, t, p);
    }
  }

  /** A commit of x/../y takes the offsets of y away at the next restart. */
  lemma DetourTakesOver(home: Path, x: bytes, y: bytes, t: bytes, p: int64, o: uint64, o': uint64)
    requires OnePart(x) && |x| > 2 && OnePart(y)
    ensures var events := [Commit(y, t, p, o, NoFault), Commit(Detour(x, y), t, p, o', NoFault)];
            && Visible(home, events, y, t, p) == Some(o)
            && Visible(home, events + [Restart], y, t, p) == None
            && Visible(home, events + [Restart], Detour(x, y), t, p) == Some(o')
  {
    hide FileOf, OnePart;
    SharedFile(home, x, y);
    var first := Commit(y, t, p, o, NoFault);
    var events := [first, Commit(Detour(x, y), t, p, o', NoFault)];
    assert events[..1] == [first] && [first][..0] == [];
    assert |Detour(x, y)| != |y|;
    RestartExact(home, events, y, t, p);
    RestartExact(home, events, Detour(x, y), t, p);
  }
}
