/**
 * The slice of java.io the manual loader and its file cache use: paths,
 * byte streams, and a file system whose directories and files change in place.
 */
module JavaIo {
  import opened Wrappers

  newtype byte = x: int | 0 <= x < 256

  type Bytes = seq<byte>

  /** A `java.io.File`: the names from the root down. */
  type Path = seq<string>

  /**
   * The bytes an input stream delivers, one chunk per `read` call, in order;
   * what `ByteArrayOutputStream.toByteArray` holds after all of them were written.
   */
  function Concat(chunks: seq<Bytes>): Bytes
    decreases |chunks|
  {
    if chunks == [] then [] else Concat(chunks[..|chunks| - 1]) + chunks[|chunks| - 1]
  }

  /** Concatenation distributes over splitting the chunk sequence anywhere. */
  lemma {:induction false} ConcatAppend(a: seq<Bytes>, b: seq<Bytes>)
    ensures Concat(a + b) == Concat(a) + Concat(b)
    decreases |b|
  {
    if b == [] {
      assert a + b == a;
    } else {
      var b' := b[..|b| - 1];
      assert (a + b)[..|a + b| - 1] == a + b';
      ConcatAppend(a, b');
    }
  }

  /** The concatenation is as long as all chunks together. */
  lemma {:induction false} ConcatLength(chunks: seq<Bytes>)
    ensures |Concat(chunks)| == TotalLength(chunks)
    decreases |chunks|
  {
    if chunks != [] {
      ConcatLength(chunks[..|chunks| - 1]);
    }
  }

  function TotalLength(chunks: seq<Bytes>): nat
    decreases |chunks|
  {
    if chunks == [] then 0 else TotalLength(chunks[..|chunks| - 1]) + |chunks[|chunks| - 1]|
  }

  /** `p` names an entry directly inside `dir`. */
  predicate ChildOf(p: Path, dir: Path)
  {
    |p| == |dir| + 1 && p[..|dir|] == dir
  }

  /** `dir` and every directory above it, the root excluded. */
  function Ancestry(dir: Path): set<Path>
  {
    set i | 0 < i <= |dir| :: dir[..i]
  }

  /**
   * The file system as a value: the directories that exist, the regular files
   * with their content, and the files the operating system refuses to delete
   * (a read-only medium, a missing permission).
   */
  datatype Disk = Disk(dirs: set<Path>, files: map<Path, Bytes>, locked: set<Path>)

  predicate Exists(d: Disk, p: Path)
  {
    p in d.dirs || p in d.files
  }

  /**
   * A disk as a real file system has it: the root is a directory, no path is
   * both a directory and a file, and every file lies in an existing directory.
   */
  predicate WellFormed(d: Disk)
  {
    [] in d.dirs &&
    (forall p | p in d.files :: p !in d.dirs) &&
    (forall p | p in d.files :: |p| > 0 && p[..|p| - 1] in d.dirs)
  }

  /** `File.mkdirs()`: whether it creates `dir` (with its missing parents), and the disk after it. */
  function MakeDirs(d: Disk, dir: Path, granted: bool): (r: (bool, Disk))
    ensures r.0 ==> dir in r.1.dirs && r.1.files == d.files
    ensures !r.0 ==> r.1 == d
  {
    var ok := granted && dir !in d.dirs && forall p | p in Ancestry(dir) :: p !in d.files;
    if ok then (true, d.(dirs := d.dirs + Ancestry(dir) + {dir})) else (false, d)
  }

  /**
   * `new FileOutputStream(f)` followed by copying `data` and closing: it fails with
   * FileNotFoundException when the parent directory is missing or `f` is a directory;
   * otherwise `f` holds exactly `data`.
   */
  function WriteFile(d: Disk, f: Path, data: Bytes): (r: Option<Disk>)
    ensures r.Some? <==> |f| > 0 && f[..|f| - 1] in d.dirs && f !in d.dirs
    ensures r.Some? ==> r.value.files == d.files[f := data] && r.value.dirs == d.dirs && r.value.locked == d.locked
  {
    if |f| > 0 && f[..|f| - 1] in d.dirs && f !in d.dirs then Some(d.(files := d.files[f := data])) else None
  }

  /** Creating directories keeps the disk well formed: a path already holding a file is never made a directory. */
  lemma MakeDirsWellFormed(d: Disk, dir: Path, granted: bool)
    requires WellFormed(d)
    ensures WellFormed(MakeDirs(d, dir, granted).1)
  {
    if MakeDirs(d, dir, granted).0 {
      assert |dir| > 0;
      assert dir[..|dir|] == dir;
      assert dir in Ancestry(dir);
    }
  }

  /** Writing a file keeps the disk well formed. */
  lemma WriteFileWellFormed(d: Disk, f: Path, data: Bytes)
    requires WellFormed(d) && WriteFile(d, f, data).Some?
    ensures WellFormed(WriteFile(d, f, data).value)
  {
  }

  /** `new FileInputStream(f)` read to the end; `None` is FileNotFoundException. */
  function ReadFile(d: Disk, f: Path): Option<Bytes>
  {
    if f in d.files then Some(d.files[f]) else None
  }

  /** `File.delete()` on a regular file: whether it went, and the disk after it. */
  function DeleteFile(d: Disk, f: Path): (r: (bool, Disk))
    ensures r.0 <==> f in d.files && f !in d.locked
    ensures r.1.files.Keys == if r.0 then d.files.Keys - {f} else d.files.Keys
    ensures r.1.dirs == d.dirs && r.1.locked == d.locked
  {
    if f in d.files && f !in d.locked then (true, d.(files := d.files - {f})) else (false, d)
  }

  /** Deleting a file keeps the disk well formed. */
  lemma DeleteFileWellFormed(d: Disk, f: Path)
    requires WellFormed(d)
    ensures WellFormed(DeleteFile(d, f).1)
  {
  }

  /** The files of `dir` that a `delete()` of each one removes. */
  function Removable(d: Disk, dir: Path): set<Path>
  {
    set f | f in d.files && ChildOf(f, dir) && f !in d.locked
  }

  /** The disk after every file directly inside `dir` was deleted once, failures skipped. */
  function ClearDir(d: Disk, dir: Path): (r: Disk)
    ensures r.dirs == d.dirs && r.locked == d.locked
    ensures forall f :: f in r.files <==> f in d.files && f !in Removable(d, dir)
    ensures forall f | f in r.files :: r.files[f] == d.files[f]
  {
    d.(files := d.files - Removable(d, dir))
  }

  /** Deleting the listed files one after the other, left to right. */
  function DeleteEach(d: Disk, fs: seq<Path>): Disk
    decreases |fs|
  {
    if fs == [] then d else DeleteFile(DeleteEach(d, fs[..|fs| - 1]), fs[|fs| - 1]).1
  }

  /** Deleting several files one by one removes exactly the unlocked ones among them. */
  lemma {:induction false} DeleteEachRemoves(d: Disk, fs: seq<Path>)
    ensures DeleteEach(d, fs) == d.(files := d.files - (set i | 0 <= i < |fs| && fs[i] !in d.locked :: fs[i]))
    decreases |fs|
  {
    if fs != [] {
      var n := |fs| - 1;
      DeleteEachRemoves(d, fs[..n]);
      var before := set i | 0 <= i < n && fs[..n][i] !in d.locked :: fs[..n][i];
      var after := set i | 0 <= i < |fs| && fs[i] !in d.locked :: fs[i];
      assert after == if fs[n] in d.locked then before else before + {fs[n]} by {
        forall x | x in after ensures x in before || (x == fs[n] && fs[n] !in d.locked) {
          var i :| 0 <= i < |fs| && fs[i] !in d.locked && fs[i] == x;
          if i < n { assert fs[..n][i] == x; }
        }
        forall x | x in before ensures x in after {
          var i :| 0 <= i < n && fs[..n][i] !in d.locked && fs[..n][i] == x;
          assert fs[i] == x;
        }
      }
    }
  }

  /** Deleting a complete listing of a directory's files, in any order, clears the directory. */
  lemma DeleteListingClears(d: Disk, dir: Path, fs: seq<Path>)
    requires forall f :: f in fs <==> f in d.files && ChildOf(f, dir)
    ensures DeleteEach(d, fs) == ClearDir(d, dir)
  {
    DeleteEachRemoves(d, fs);
    var removed := set i | 0 <= i < |fs| && fs[i] !in d.locked :: fs[i];
    assert removed == Removable(d, dir) by {
      forall f | f in Removable(d, dir) ensures f in removed {
        var i :| 0 <= i < |fs| && fs[i] == f;
      }
    }
  }

  /** The operating system's file system, changed in place by the calls below. */
  class FileSystem {
    var dirs: set<Path>
    var files: map<Path, Bytes>
    var locked: set<Path>

    constructor (d: Disk)
      ensures State() == d
    {
      dirs, files, locked := d.dirs, d.files, d.locked;
    }

    function State(): Disk
      reads this
    {
      Disk(dirs, files, locked)
    }

    /** `File.exists()`. */
    method IsPresent(p: Path) returns (b: bool)
      ensures b <==> Exists(State(), p)
    {
      b := p in dirs || p in files;
    }

    /** `File.mkdirs()`; `granted` is whether the platform lets the app create it. */
    method Mkdirs(dir: Path, granted: bool) returns (ok: bool)
      modifies this
      ensures (ok, State()) == MakeDirs(old(State()), dir, granted)
    {
      ok := granted && dir !in dirs && forall p | p in Ancestry(dir) :: p !in files;
      if ok {
        dirs := dirs + Ancestry(dir) + {dir};
      }
    }

    /** Opening `f` for output, copying `data` into it and closing it. */
    method Write(f: Path, data: Bytes) returns (ok: bool)
      modifies this
      ensures ok == WriteFile(old(State()), f, data).Some?
      ensures ok ==> State() == WriteFile(old(State()), f, data).value
      ensures !ok ==> State() == old(State())
    {
      ok := |f| > 0 && f[..|f| - 1] in dirs && f !in dirs;
      if ok {
        files := files[f := data];
      }
    }

    /** Opening `f` for input and reading it to the end; `None` is FileNotFoundException. */
    method Read(f: Path) returns (r: Option<Bytes>)
      ensures r == ReadFile(State(), f)
    {
      if f in files {
        r := Some(files[f]);
      } else {
        r := None;
      }
    }

    /**
     * `File.listFiles()` restricted to regular files: `None` (Java's `null`) when
     * `dir` is not a directory, otherwise every file directly inside it once, in
     * whatever order the platform lists them.
     */
    method ListFiles(dir: Path) returns (r: Option<seq<Path>>)
      ensures r.None? <==> dir !in dirs
      ensures r.Some? ==> forall f :: f in r.value <==> f in files && ChildOf(f, dir)
      ensures r.Some? ==> forall i, j | 0 <= i < j < |r.value| :: r.value[i] != r.value[j]
    {
      if dir !in dirs {
        return None;
      }
      var pending := set f | f in files && ChildOf(f, dir);
      var listed: seq<Path> := [];
      while pending != {}
        invariant forall f :: f in listed || f in pending <==> f in files && ChildOf(f, dir)
        invariant forall f | f in listed :: f !in pending
        invariant forall i, j | 0 <= i < j < |listed| :: listed[i] != listed[j]
        decreases |pending|
      {
        var f :| f in pending;
        listed := listed + [f];
        pending := pending - {f};
      }
      r := Some(listed);
    }

    /** `File.delete()` on a regular file. */
    method Delete(f: Path) returns (ok: bool)
      modifies this
      ensures (ok, State()) == DeleteFile(old(State()), f)
    {
      ok := f in files && f !in locked;
      if ok {
        files := files - {f};
      }
    }
  }
}
