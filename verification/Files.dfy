/**
  A directory of byte files and open handles on them. A handle has a cursor that reads and
  seeks move; writes through an O_APPEND handle go to the end of the file.
 */
module Files {
  import opened Bytes
  import opened Outcomes

  class Directory {
    var files: map<string, bytes>

    constructor ()
      ensures files == map[]
    {
      files := map[];
    }
  }

  /** The file table after opening a name with O_CREATE. */
  function Created(files: map<string, bytes>, name: string): map<string, bytes> {
    if name in files then files else files[name := []]
  }

  /** The file of this name, if there is one, is still there with the same contents. */
  ghost predicate SameFile(before: map<string, bytes>, after: map<string, bytes>, name: string) {
    name in before ==> name in after && after[name] == before[name]
  }

  lemma CreatedSame(files: map<string, bytes>, a: string, b: string, name: string)
    ensures SameFile(files, Created(Created(files, a), b), name)
  {
  }

  /** The contents after writing buf at byte position at, zero-filling any gap. */
  function Overlay(contents: bytes, at: nat, buf: bytes): bytes {
    Fit(contents, at) + buf + (if at + |buf| < |contents| then contents[at + |buf|..] else [])
  }

  class File {
    const dir: Directory
    const name: string
    var cursor: nat

    constructor Open(dir: Directory, name: string)
      modifies dir
      ensures this.dir == dir && this.name == name && cursor == 0
      ensures dir.files == Created(old(dir.files), name)
    {
      this.dir := dir;
      this.name := name;
      cursor := 0;
      new;
      if name !in dir.files {
        dir.files := dir.files[name := []];
      }
    }

    function Contents(): bytes
      requires name in dir.files
      reads dir
    {
      dir.files[name]
    }

    /** File.Seek from the start of the file. */
    method SeekStart(pos: nat)
      modifies this
      ensures cursor == pos
    {
      cursor := pos;
    }

    /** File.Seek from the cursor; it may go past the end. */
    method SeekCurrent(delta: nat)
      modifies this
      ensures cursor == old(cursor) + delta
    {
      cursor := cursor + delta;
    }

    /** File.Seek to the end of the file. */
    method SeekEnd()
      requires name in dir.files
      modifies this
      ensures cursor == |Contents()|
    {
      cursor := |dir.files[name]|;
    }

    /** io.ReadFull of n bytes, also what binary.Read does before decoding. */
    method ReadFull(n: nat) returns (r: Outcome<bytes>)
      requires name in dir.files
      modifies this
      ensures old(cursor) + n <= |Contents()|
          ==> r == Ok(Contents()[old(cursor)..old(cursor) + n]) && cursor == old(cursor) + n
      ensures old(cursor) + n > |Contents()| && n > 0
          ==> r == Err(if old(cursor) >= |Contents()| then EOF else UnexpectedEOF)
              && (old(cursor) < |Contents()| ==> cursor == |Contents()|)
      ensures n == 0 ==> r == Ok([])
    {
      var size := |dir.files[name]|;
      if n == 0 {
        r := Ok([]);
        assert cursor <= size ==> dir.files[name][cursor..cursor] == [];
      } else if cursor + n <= size {
        r := Ok(dir.files[name][cursor..cursor + n]);
        cursor := cursor + n;
      } else if cursor >= size {
        r := Err(EOF);
      } else {
        cursor := size;
        r := Err(UnexpectedEOF);
      }
    }

    /** File.Write on a handle opened with O_APPEND. */
    method Append(buf: bytes)
      requires name in dir.files
      modifies this, dir
      ensures dir.files == old(dir.files)[name := old(Contents()) + buf]
    {
      dir.files := dir.files[name := dir.files[name] + buf];
      cursor := |dir.files[name]|;
    }

    /** File.WriteAt; the cursor does not move. */
    method WriteAt(buf: bytes, at: nat)
      requires name in dir.files
      modifies dir
      ensures dir.files == old(dir.files)[name := Overlay(old(Contents()), at, buf)]
    {
      dir.files := dir.files[name := Overlay(dir.files[name], at, buf)];
    }
  }
}
