/**
 * The local filesystem the exporter writes into, as an abstract state: a set
 * of directory paths and a map from file paths to their contents. Paths are
 * raw strings (no normalisation of doubled or trailing separators).
 */
module FileSystems {

  import opened Paths

  newtype byte = x: int | 0 <= x < 256

  /** What a file holds: raw bytes (content streams, placeholders) or text (metadata). */
  datatype Contents = Bytes(data: seq<byte>) | Text(text: string)

  /** A snapshot of the filesystem. */
  datatype State = State(dirs: set<string>, files: map<string, Contents>)

  /** The snapshot after File.mkdirs() on `d`. */
  function MkDirsState(s: State, d: string): State {
    State(s.dirs + DirChain(d), s.files)
  }

  /** The snapshot after File.createNewFile() on `p`: an empty file unless one is there. */
  function CreateNewFileState(s: State, p: string): State {
    if p in s.files then s else State(s.dirs, s.files[p := Bytes([])])
  }

  /** The snapshot after writing `c` to `p`, creating or truncating the file. */
  function WriteState(s: State, p: string, c: Contents): State {
    State(s.dirs, s.files[p := c])
  }

  /** The destination filesystem, updated in place by the exporter. */
  class FileSystem {
    var dirs: set<string>
    var files: map<string, Contents>

    ghost predicate Valid()
      reads this
    {
      AncestorClosed(dirs)
    }

    function Snapshot(): State
      reads this
    {
      State(dirs, files)
    }

    constructor (s: State)
      requires AncestorClosed(s.dirs)
      ensures Valid() && Snapshot() == s
    {
      dirs := s.dirs;
      files := s.files;
    }

    /** File.exists() on a directory path. */
    predicate DirExists(d: string)
      reads this
    {
      d in dirs
    }

    /** File.exists() on a file path. */
    predicate FileExists(p: string)
      reads this
    {
      p in files
    }

    /** File.mkdirs(): `d` and all its missing ancestors become directories. */
    method MkDirs(d: string)
      requires Valid()
      modifies this
      ensures Valid()
      ensures Snapshot() == MkDirsState(old(Snapshot()), d)
    {
      AddChainClosed(dirs, d);
      dirs := dirs + DirChain(d);
    }

    /** File.createNewFile(): an empty file appears unless one is already there. */
    method CreateNewFile(p: string)
      requires Valid()
      modifies this
      ensures Valid()
      ensures Snapshot() == CreateNewFileState(old(Snapshot()), p)
    {
      if p !in files {
        files := files[p := Bytes([])];
      }
    }

    /** Opening `p` for writing and writing `c`: the file's contents become exactly `c`. */
    method Write(p: string, c: Contents)
      requires Valid()
      modifies this
      ensures Valid()
      ensures Snapshot() == WriteState(old(Snapshot()), p, c)
    {
      files := files[p := c];
    }
  }
}
