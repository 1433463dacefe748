/**
  The file a group's offsets go to (filepath.Join in broker/consumer/group.go): the group id
  becomes part of a path, and separators in it are resolved before the file is opened.
 */
module Paths {
  import opened Bytes
  import opened Decimal

  /** The components of a cleaned absolute path. */
  type Path = seq<string>

  const JSON: string := ".json"
  const TMP: string := ".tmp"

  function AsText(b: bytes): (s: string)
    ensures |s| == |b|
  {
    seq(|b|, i requires 0 <= i < |b| => b[i] as char)
  }

  lemma TextInjective(a: bytes, b: bytes)
    requires AsText(a) == AsText(b)
    ensures a == b
  {
    forall i | 0 <= i < |a|
      ensures a[i] == b[i]
    {
      assert AsText(a)[i] == AsText(b)[i];
    }
  }

  /** The parts between separators. */
  function Split(s: string): (parts: seq<string>)
    ensures parts != []
  {
    if s == "" then [""]
    else
      var rest := Split(s[1..]);
      if s[0] == '/' then [""] + rest else [[s[0]] + rest[0]] + rest[1..]
  }

  function Enter(at: Path, part: string): Path {
    if part == "" || part == "." then at
    else if part == ".." then (if at == [] then [] else at[..|at| - 1])
    else at + [part]
  }

  function Walk(at: Path, parts: seq<string>): Path
    decreases parts
  {
    if parts == [] then at else Walk(Enter(at, parts[0]), parts[1..])
  }

  /** The name of the group's file in the directory, if it lies directly in that directory. */
  function FileOf(home: Path, g: bytes): Option<string> {
    var path := Walk(home, Split(AsText(g) + JSON));
    if |path| == |home| + 1 && path[..|home|] == home then Some(path[|home|]) else None
  }

  // ---------- the last part ----------

  lemma SuffixBehind(c: char, s: string, suffix: string)
    requires HasSuffix(s, suffix)
    ensures HasSuffix([c] + s, suffix)
  {
    var t := [c] + s;
    assert t[|t| - |suffix|..] == s[|s| - |suffix|..];
  }

  lemma SplitOnce(c: char, s: string)
    ensures var parts, rest := Split([c] + s), Split(s);
            parts == if c == '/' then [""] + rest else [[c] + rest[0]] + rest[1..]
  {
    assert ([c] + s)[1..] == s;
  }

  lemma {:induction false} LastPart(s: string, suffix: string)
    requires forall i :: 0 <= i < |suffix| ==> suffix[i] != '/'
    ensures var parts := Split(s + suffix); HasSuffix(parts[|parts| - 1], suffix)
  {
    hide HasSuffix, Split;
    if s == "" {
      assert s + suffix == suffix;
      NoSeparator(suffix);
      WholeSuffix(suffix);
    } else {
      var rest := Split(s[1..] + suffix);
      LastPart(s[1..], suffix);
      SplitOnce(s[0], s[1..] + suffix);
      assert s + suffix == [s[0]] + (s[1..] + suffix);
      if |rest| == 1 {
        SuffixBehind(s[0], rest[0], suffix);
      }
    }
  }

  lemma WholeSuffix(s: string)
    ensures HasSuffix(s, s)
  {
  }

  lemma {:induction false} NoSeparator(s: string)
    requires forall i :: 0 <= i < |s| ==> s[i] != '/'
    ensures Split(s) == [s]
  {
    if s != "" {
      NoSeparator(s[1..]);
      assert [s[0]] + s[1..] == s;
    }
  }

  lemma {:induction false} WalkEnds(at: Path, parts: seq<string>)
    requires parts != [] && |parts[|parts| - 1]| > 2
    ensures var path := Walk(at, parts); path != [] && path[|path| - 1] == parts[|parts| - 1]
    decreases parts
  {
    if |parts| > 1 {
      WalkEnds(Enter(at, parts[0]), parts[1..]);
    } else {
      assert parts[1..] == [];
    }
  }

  /** A group's file is one that a reload looks at. */
  lemma FileIsJson(home: Path, g: bytes)
    requires FileOf(home, g).Some?
    ensures HasSuffix(FileOf(home, g).value, JSON)
  {
    hide Split, Walk, AsText;
    var parts := Split(AsText(g) + JSON);
    LastPart(AsText(g), JSON);
    WalkEnds(home, parts);
  }

  /** A temporary file never is. */
  lemma TempIsNot(name: string)
    requires HasSuffix(name, JSON)
    ensures !HasSuffix(name + TMP, JSON)
  {
    var temp := name + TMP;
    assert temp[|temp| - |JSON|..][|JSON| - 1] == 'p';
  }

  // ---------- ids without a separator ----------

  predicate OnePart(g: bytes) {
    forall i :: 0 <= i < |g| ==> g[i] != 0x2F
  }

  /** A group whose id has no separator has its own file. */
  lemma OwnFile(home: Path, g: bytes)
    requires OnePart(g)
    ensures FileOf(home, g) == Some(AsText(g) + JSON)
  {
    hide Split;
    var name := AsText(g) + JSON;
    NoSeparator(name);
    assert [name][1..] == [];
    assert Walk(home, [name]) == Enter(home, name) == home + [name];
  }

  lemma OwnFiles(home: Path, a: bytes, b: bytes)
    requires OnePart(a) && OnePart(b) && FileOf(home, a) == FileOf(home, b)
    ensures a == b
  {
    hide FileOf, AsText;
    OwnFile(home, a);
    OwnFile(home, b);
    assert (AsText(a) + JSON)[..|a|] == AsText(a) && (AsText(b) + JSON)[..|b|] == AsText(b);
    TextInjective(a, b);
  }

  /** The id x/../y. */
  function Detour(x: bytes, y: bytes): bytes { x + [0x2F, 0x2E, 0x2E, 0x2F] + y }

  lemma {:induction false} SplitFirst(a: string, rest: string)
    requires forall i :: 0 <= i < |a| ==> a[i] != '/'
    ensures Split(a + "/" + rest) == [a] + Split(rest)
  {
    var s := a + "/" + rest;
    if a == "" {
      assert s[1..] == rest;
    } else {
      SplitFirst(a[1..], rest);
      assert s[1..] == a[1..] + "/" + rest && [a[0]] + a[1..] == a;
    }
  }

  /** Ids with separators can share a file: x/../y has the file of y. */
  lemma SharedFile(home: Path, x: bytes, y: bytes)
    requires OnePart(x) && |x| > 2 && OnePart(y)
    ensures FileOf(home, Detour(x, y)) == FileOf(home, y) == Some(AsText(y) + JSON)
  {
    hide Split, Walk;
    OwnFile(home, y);
    var a, name := AsText(x), AsText(y) + JSON;
    assert AsText(Detour(x, y)) + JSON == a + "/" + (".." + "/" + name);
    SplitFirst(a, ".." + "/" + name);
    SplitFirst("..", name);
    NoSeparator(name);
    WalkDetour(home, a, name);
    assert [a] + ([".."] + [name]) == [a, "..", name];
  }

  lemma WalkDetour(home: Path, a: string, name: string)
    requires |a| > 2 && |name| > 2
    ensures Walk(home, [a, "..", name]) == home + [name]
  {
    var parts := [a, "..", name];
    assert parts[1..] == ["..", name] && ["..", name][1..] == [name] && [name][1..] == [];
    assert Enter(home, a) == home + [a] && Enter(home + [a], "..") == home;
    assert Walk(home, [name]) == home + [name];
    assert Walk(home + [a], ["..", name]) == home + [name];
  }

  // ---------- names of directory entries ----------

  predicate OneComponent(s: string) { forall i :: 0 <= i < |s| ==> s[i] != '/' }

  lemma {:induction false} SplitComponents(s: string)
    ensures forall i :: 0 <= i < |Split(s)| ==> OneComponent(Split(s)[i])
  {
    if s != "" {
      SplitComponents(s[1..]);
    }
  }

  lemma EnterComponents(at: Path, part: string, m: nat)
    requires (forall k :: m <= k < |at| ==> OneComponent(at[k])) && OneComponent(part)
    ensures var path := Enter(at, part); forall k :: m <= k < |path| ==> OneComponent(path[k])
  {
    hide OneComponent;
  }

  lemma {:induction false} WalkComponents(at: Path, parts: seq<string>, m: nat)
    requires forall k :: m <= k < |at| ==> OneComponent(at[k])
    requires forall i :: 0 <= i < |parts| ==> OneComponent(parts[i])
    ensures var path := Walk(at, parts); forall k :: m <= k < |path| ==> OneComponent(path[k])
    decreases parts
  {
    hide OneComponent, Enter;
    if parts == [] {
      assert Walk(at, parts) == at;
    } else {
      EnterComponents(at, parts[0], m);
      WalkComponents(Enter(at, parts[0]), parts[1..], m);
      assert Walk(at, parts) == Walk(Enter(at, parts[0]), parts[1..]);
    }
  }

  /** A path ends in an entry of this very name exactly for these names. */
  lemma EntryExact(home: Path, name: string)
    ensures Walk(home, Split(name)) == home + [name]
       <==> OneComponent(name) && name != "" && name != "." && name != ".."
  {
    hide Split;
    if OneComponent(name) {
      NoSeparator(name);
      assert [name][1..] == [];
      assert Walk(home, [name]) == Enter(home, name);
      assert |Enter(home, name)| == |home| + 1 ==> Enter(home, name) == home + [name];
    } else {
      SplitComponents(name);
      WalkComponents(home, Split(name), |home|);
      assert (home + [name])[|home|] == name;
    }
  }
}
