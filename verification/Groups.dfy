/**
  The group manager (broker/consumer/group.go): offsets in memory, one JSON file per group,
  replaced by writing a temporary file and renaming it. JSON itself is a parameter.
 */
module Groups {
  import opened Bytes
  import opened Decimal
  import opened Files
  import opened GroupSpec
  import opened Utf8
  import opened Paths

  /** encoding/json on group snapshots. */
  datatype Codec = Codec(marshal: Snapshot -> bytes, unmarshal: bytes -> Option<Snapshot>)

  ghost predicate TextualTopics(offsets: Offsets) {
    forall t :: t in offsets ==> Textual(t)
  }

  /** Groups whose ids and topics are text. */
  ghost predicate TextualGroups(groups: map<bytes, Offsets>) {
    forall g :: g in groups ==> Textual(g) && TextualTopics(groups[g])
  }

  /** What JSON keeps: snapshots of offsets whose names are text. */
  ghost predicate Lossless(codec: Codec) {
    forall id, offsets :: Textual(id) && TextualTopics(offsets)
      ==> codec.unmarshal(codec.marshal(SnapshotOf(id, offsets))) == Some(SnapshotOf(id, offsets))
  }

  ghost predicate TextualEvent(e: Event) {
    e.Commit? ==> Textual(e.group) && Textual(e.topic)
  }

  lemma StaysTextual(home: Path, s: State, e: Event)
    requires TextualGroups(s.memory) && TextualGroups(s.disk) && TextualEvent(e)
    ensures TextualGroups(Step(home, s, e).memory) && TextualGroups(Step(home, s, e).disk)
  {
    hide FileOf, Textual;
  }

  // ---------- the published files ----------

  /**
    Every group on disk has a file in the directory with its complete snapshot, and no two
    have the same one; other .json files do not parse.
   */
  ghost predicate Published(files: map<string, bytes>, codec: Codec, home: Path,
                            disk: map<bytes, Offsets>)
  {
    && (forall g :: g in disk
          ==> FileOf(home, g).Some? && FileOf(home, g).value in files
              && files[FileOf(home, g).value] == codec.marshal(SnapshotOf(g, disk[g])))
    && (forall g, h :: g in disk && h in disk && FileOf(home, g) == FileOf(home, h) ==> g == h)
    && (forall name :: name in files && HasSuffix(name, JSON)
          ==> (exists g :: g in disk && FileOf(home, g) == Some(name))
              || codec.unmarshal(files[name]) == None)
  }

  /**
    What a commit of these bytes to a file leaves in the directory, stopped where the fault
    says. A file that lies elsewhere leaves the directory alone.
   */
  function FilesAfter(files: map<string, bytes>, file: Option<string>, data: bytes, fault: Fault)
    : map<string, bytes>
  {
    match file
    case None => files
    case Some(name) =>
      match fault
      case OpenFails => files
      case WriteStops(n) => files[name + TMP := if n < |data| then data[..n] else data]
      case RenameFails => files[name + TMP := data]
      case NoFault => (files - {name + TMP})[name := data]
  }

  /** A commit publishes a whole snapshot or leaves what is published alone. */
  lemma CommitPublishes(files: map<string, bytes>, codec: Codec, home: Path, s: State, g: bytes,
                        t: bytes, p: int64, o: uint64, fault: Fault)
    requires Published(files, codec, home, s.disk)
    ensures var data := codec.marshal(SnapshotOf(g, With(GroupOf(s.memory, g), t, p, o)));
            Published(FilesAfter(files, FileOf(home, g), data, fault), codec, home,
                      Step(home, s, Commit(g, t, p, o, fault)).disk)
  {
    hide FileOf, HasSuffix, SnapshotOf, With;
    var file := FileOf(home, g);
    if file.Some? {
      FileIsJson(home, g);
      TempIsNot(file.value);
      var data := codec.marshal(SnapshotOf(g, With(GroupOf(s.memory, g), t, p, o)));
      var after, disk := FilesAfter(files, file, data, fault), Step(home, s, Commit(g, t, p, o, fault)).disk;
      forall h | h in disk
        ensures FileOf(home, h).Some? && FileOf(home, h).value in after
        ensures after[FileOf(home, h).value] == codec.marshal(SnapshotOf(h, disk[h]))
      {
        if FileOf(home, h).Some? {
          FileIsJson(home, h);
        }
      }
      forall name | name in after && HasSuffix(name, JSON)
        ensures (exists h :: h in disk && FileOf(home, h) == Some(name))
             || codec.unmarshal(after[name]) == None
      {
        if name in files && name != file.value {
          if h :| h in s.disk && FileOf(home, h) == Some(name) {
            assert h in disk;
          }
        }
      }
    }
  }

  // ---------- building and parsing snapshots ----------

  method EncodePartitions(m: map<int64, uint64>) returns (r: map<string, uint64>)
    ensures r == TextKeys(m)
  {
    hide Itoa, TextKeys;
    r := map[];
    var rest := m.Keys;
    while rest != {}
      invariant rest <= m.Keys
      invariant forall p :: p in m.Keys - rest ==> Itoa(p) in r && r[Itoa(p)] == m[p]
      invariant forall s :: s in r ==> exists p :: p in m.Keys - rest && s == Itoa(p)
      decreases |rest|
    {
      ItoaInjective();
      var p :| p in rest;
      rest := rest - {p};
      r := r[Itoa(p) := m[p]];
    }
    SameTextKeys(m, r);
  }

  lemma SameTextKeys(m: map<int64, uint64>, r: map<string, uint64>)
    requires forall p :: p in m ==> Itoa(p) in r && r[Itoa(p)] == m[p]
    requires forall s :: s in r ==> exists p :: p in m && s == Itoa(p)
    ensures r == TextKeys(m)
  {
    hide Itoa, TextKeys;
    forall s | s in TextKeys(m)
      ensures s in r && r[s] == TextKeys(m)[s]
    {
      var p := TextKeyOf(m, s);
    }
    forall s | s in r
      ensures s in TextKeys(m)
    {
      var p :| p in m && s == Itoa(p);
      TextKeyIn(m, p);
    }
  }

  method EncodeGroup(id: bytes, offsets: Offsets) returns (s: Snapshot)
    ensures s == SnapshotOf(id, offsets)
  {
    hide TextKeys;
    var out: map<bytes, map<string, uint64>> := map[];
    var rest := offsets.Keys;
    while rest != {}
      invariant rest <= offsets.Keys
      invariant out.Keys == offsets.Keys - rest
      invariant forall t :: t in out ==> out[t] == TextKeys(offsets[t])
      decreases |rest|
    {
      var t :| t in rest;
      var partitions := EncodePartitions(offsets[t]);
      rest := rest - {t};
      out := out[t := partitions];
    }
    s := Snapshot(id, out);
  }

  method DecodePartitions(r: map<string, uint64>) returns (m: map<int64, uint64>)
    ensures Parses(r, m)
  {
    hide Atoi;
    m := map[];
    var rest := r.Keys;
    while rest != {}
      invariant rest <= r.Keys
      invariant forall s :: s in r.Keys - rest && Atoi(s).Some? ==> Atoi(s).value in m
      invariant forall p :: p in m ==> exists s :: s in r.Keys - rest && Atoi(s) == Some(p) && m[p] == r[s]
      decreases |rest|
    {
      var s :| s in rest;
      rest := rest - {s};
      match Atoi(s) {
        case None =>
        case Some(p) => m := m[p := r[s]];
      }
    }
  }

  /** A snapshot that was built from offsets gives those offsets back. */
  method DecodeGroup(s: Snapshot) returns (offsets: Offsets)
    ensures forall id, o :: s == SnapshotOf(id, o) ==> offsets == o
  {
    hide TextKeys, Parses;
    offsets := map[];
    var rest := s.offsets.Keys;
    while rest != {}
      invariant rest <= s.offsets.Keys
      invariant offsets.Keys == s.offsets.Keys - rest
      invariant forall t :: t in offsets ==> Parses(s.offsets[t], offsets[t])
      decreases |rest|
    {
      var t :| t in rest;
      var partitions := DecodePartitions(s.offsets[t]);
      rest := rest - {t};
      offsets := offsets[t := partitions];
    }
    forall id, o | s == SnapshotOf(id, o)
      ensures offsets == o
    {
      forall t | t in offsets
        ensures t in o && offsets[t] == o[t]
      {
        TextKeysParse(o[t], offsets[t]);
      }
    }
  }

  // ---------- the manager ----------

  class GroupManager {
    const dir: Directory
    const codec: Codec
    const home: Path
    var groups: map<bytes, Offsets>

    constructor (dir: Directory, codec: Codec, home: Path, groups: map<bytes, Offsets>)
      ensures this.dir == dir && this.codec == codec && this.home == home && this.groups == groups
    {
      this.dir, this.codec, this.home, this.groups := dir, codec, home, groups;
    }

    /** os.WriteFile: truncates the file, then writes. */
    method WriteFile(name: string, data: bytes, fault: Fault) returns (ok: bool)
      modifies dir
      ensures ok <==> fault == NoFault || fault == RenameFails
      ensures dir.files == match fault
                           case OpenFails => old(dir.files)
                           case WriteStops(n) =>
                             old(dir.files)[name := if n < |data| then data[..n] else data]
                           case _ => old(dir.files)[name := data]
    {
      if fault == OpenFails {
        return false;
      }
      dir.files := dir.files[name := []];
      if fault.WriteStops? && fault.written < |data| {
        dir.files := dir.files[name := data[..fault.written]];
      } else {
        dir.files := dir.files[name := data];
      }
      return !fault.WriteStops?;
    }

    /** os.Rename. */
    method Rename(from: string, to: string, fault: Fault) returns (ok: bool)
      requires from in dir.files && from != to
      modifies dir
      ensures ok <==> fault != RenameFails
      ensures dir.files == if ok then (old(dir.files) - {from})[to := old(dir.files)[from]]
                           else old(dir.files)
    {
      if fault == RenameFails {
        return false;
      }
      var data := dir.files[from];
      dir.files := (dir.files - {from})[to := data];
      return true;
    }

    /** CommitOffset; memory changes first and stays changed when writing fails. */
    method CommitOffset(g: bytes, t: bytes, p: int64, o: uint64, fault: Fault) returns (ok: bool)
      modifies this, dir
      ensures ok <==> fault == NoFault
      ensures groups == old(groups)[g := With(GroupOf(old(groups), g), t, p, o)]
      ensures dir.files
           == FilesAfter(old(dir.files), FileOf(home, g), codec.marshal(SnapshotOf(g, groups[g])), fault)
    {
      hide FileOf, SnapshotOf, HasSuffix;
      var offsets := if g in groups then groups[g] else map[];
      var partitions := if t in offsets then offsets[t] else map[];
      offsets := offsets[t := partitions[p := o]];
      groups := groups[g := offsets];
      var snapshot := EncodeGroup(g, offsets);
      var data := codec.marshal(snapshot);
      var path := FileOf(home, g);
      match path {
        case None => return fault == NoFault;    // a file somewhere else
        case Some(name) =>
          FileIsJson(home, g);
          TempIsNot(name);
          ok := WriteFile(name + TMP, data, fault);
          if ok {
            ok := Rename(name + TMP, name, fault);
            assert fault == NoFault ==> dir.files == FilesAfter(old(dir.files), path, data, fault);
          }
      }
    }

    method GetOffset(g: bytes, t: bytes, p: int64) returns (offset: uint64, found: bool)
      ensures Lookup(groups, g, t, p) == if found then Some(offset) else None
      ensures !found ==> offset == 0
    {
      if g in groups {
        if t in groups[g] {
          if p in groups[g][t] {
            return groups[g][t][p], true;
          }
        }
      }
      return 0, false;
    }
  }

  /** NewGroupManager: reads every published file, in any order, and skips what does not parse. */
  method NewGroupManager(dir: Directory, codec: Codec, home: Path, ghost disk: map<bytes, Offsets>)
    returns (gm: GroupManager)
    requires Lossless(codec) && Published(dir.files, codec, home, disk) && TextualGroups(disk)
    ensures fresh(gm) && gm.dir == dir && gm.codec == codec && gm.home == home && gm.groups == disk
  {
    hide FileOf, Published, Lossless, TextualGroups, Awaits;
    var groups: map<bytes, Offsets> := map[];
    var rest := dir.files.Keys;
    AllAwait(dir.files, codec, home, disk);
    while rest != {}
      invariant rest <= dir.files.Keys
      invariant forall g :: g in groups ==> g in disk && groups[g] == disk[g]
      invariant forall g :: g in disk && !Awaits(home, g, rest) ==> g in groups
      decreases |rest|
    {
      var name :| name in rest;
      var read := ReadGroup(dir, codec, home, name, disk);
      AwaitsLess(home, rest, name);
      match read {
        case None =>
        case Some((id, offsets)) => groups := groups[id := offsets];
      }
      rest := rest - {name};
    }
    gm := new GroupManager(dir, codec, home, groups);
  }

  /** One round of the loop: a file with its suffix and contents checked. */
  method ReadGroup(dir: Directory, codec: Codec, home: Path, name: string,
                   ghost disk: map<bytes, Offsets>)
    returns (r: Option<(bytes, Offsets)>)
    requires Lossless(codec) && Published(dir.files, codec, home, disk) && TextualGroups(disk)
    requires name in dir.files
    ensures match r
            case None => forall g :: g in disk ==> FileOf(home, g) != Some(name)
            case Some((id, offsets)) =>
              id in disk && offsets == disk[id]
              && forall g :: g in disk && FileOf(home, g) == Some(name) ==> g == id
  {
    hide FileOf, HasSuffix, SnapshotOf, Published, Lossless, TextualGroups;
    if !HasSuffix(name, JSON) {
      NotPublished(home, disk, name);
      return None;
    }
    FileParses(dir.files, codec, home, disk, name);
    match codec.unmarshal(dir.files[name]) {
      case None => return None;
      case Some(snapshot) =>
        var offsets := DecodeGroup(snapshot);
        return Some((snapshot.id, offsets));
    }
  }

  /** The group's file has not been read yet. */
  predicate Awaits(home: Path, g: bytes, rest: set<string>) {
    match FileOf(home, g)
    case Some(name) => name in rest
    case None => false
  }

  lemma AllAwait(files: map<string, bytes>, codec: Codec, home: Path, disk: map<bytes, Offsets>)
    requires Published(files, codec, home, disk)
    ensures forall g :: g in disk ==> Awaits(home, g, files.Keys) && !Awaits(home, g, {})
  {
    hide FileOf, HasSuffix;
  }

  lemma AwaitsLess(home: Path, rest: set<string>, name: string)
    ensures forall g :: Awaits(home, g, rest - {name})
                   <==> Awaits(home, g, rest) && FileOf(home, g) != Some(name)
  {
    hide FileOf;
  }

  lemma FileParses(files: map<string, bytes>, codec: Codec, home: Path, disk: map<bytes, Offsets>,
                   name: string)
    requires Lossless(codec) && Published(files, codec, home, disk) && TextualGroups(disk)
    requires name in files && HasSuffix(name, JSON)
    ensures match codec.unmarshal(files[name])
            case None => forall g :: g in disk ==> FileOf(home, g) != Some(name)
            case Some(s) =>
              s.id in disk && s == SnapshotOf(s.id, disk[s.id]) && FileOf(home, s.id) == Some(name)
              && forall g :: g in disk && FileOf(home, g) == Some(name) ==> g == s.id
  {
    hide FileOf, HasSuffix;
  }

  lemma NotPublished(home: Path, disk: map<bytes, Offsets>, name: string)
    requires !HasSuffix(name, JSON)
    ensures forall g :: g in disk ==> FileOf(home, g) != Some(name)
  {
    hide FileOf, HasSuffix;
    forall g | g in disk && FileOf(home, g) == Some(name)
      ensures false
    {
      FileIsJson(home, g);
    }
  }

  /** Every run of commits, faults and restarts from an empty directory. */
  method Run(codec: Codec, home: Path, events: seq<Event>) returns (gm: GroupManager)
    requires Lossless(codec) && forall i :: 0 <= i < |events| ==> TextualEvent(events[i])
    ensures gm.codec == codec && gm.home == home && gm.groups == After(home, events).memory
    ensures Published(gm.dir.files, codec, home, After(home, events).disk)
  {
    hide Published, Step, Lossless, TextualGroups, TextualEvent;
    var dir := new Directory();
    NothingPublished(codec, home);
    NoGroupsTextual();
    gm := NewGroupManager(dir, codec, home, map[]);
    var i := 0;
    while i < |events|
      invariant 0 <= i <= |events|
      invariant fresh(gm) && fresh(dir) && gm.dir == dir && gm.codec == codec && gm.home == home
      invariant gm.groups == After(home, events[..i]).memory
      invariant Published(dir.files, codec, home, After(home, events[..i]).disk)
      invariant TextualGroups(After(home, events[..i]).memory)
      invariant TextualGroups(After(home, events[..i]).disk)
    {
      assert events[..i + 1][..i] == events[..i];
      StaysTextual(home, After(home, events[..i]), events[i]);
      gm := Advance(gm, After(home, events[..i]), events[i]);
      i := i + 1;
    }
    assert events[..i] == events;
  }

  lemma NoGroupsTextual()
    ensures TextualGroups(map[])
  {
  }

  lemma NothingPublished(codec: Codec, home: Path)
    ensures Published(map[], codec, home, map[])
  {
  }

  method Advance(gm: GroupManager, ghost s: State, e: Event) returns (after: GroupManager)
    requires Lossless(gm.codec) && gm.groups == s.memory
    requires Published(gm.dir.files, gm.codec, gm.home, s.disk) && TextualGroups(s.disk)
    modifies gm, gm.dir
    ensures after == gm || fresh(after)
    ensures after.dir == gm.dir && after.codec == gm.codec && after.home == gm.home
    ensures after.groups == Step(gm.home, s, e).memory
    ensures Published(after.dir.files, after.codec, after.home, Step(gm.home, s, e).disk)
  {
    hide Published, FilesAfter, SnapshotOf, With, FileOf, Elsewhere;
    match e {
      case Restart =>
        after := NewGroupManager(gm.dir, gm.codec, gm.home, s.disk);
      case Commit(g, t, p, o, fault) =>
        CommitPublishes(gm.dir.files, gm.codec, gm.home, s, g, t, p, o, fault);
        var _ := gm.CommitOffset(g, t, p, o, fault);
        after := gm;
    }
  }
}
