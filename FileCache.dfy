/**
 * `FileCache`: the directory where the manual loader keeps downloaded images,
 * one file per url, named after the url's `String.hashCode`.
 */
module FileCaching {
  import opened JavaLang
  import opened JavaIo
  import opened Model

  /** What the constructor learns from the platform. */
  datatype Storage = Storage(mounted: bool, externalStorageDirectory: Path, appCacheDir: Path)

  /** The cache directory: "LazyList" on mounted external storage, the app's cache directory otherwise. */
  function CacheRoot(st: Storage): (root: Path)
    ensures st.mounted ==> root == st.externalStorageDirectory + ["LazyList"]
    ensures !st.mounted ==> root == st.appCacheDir
  {
    if st.mounted then st.externalStorageDirectory + ["LazyList"] else st.appCacheDir
  }

  /** The file name for a url: the decimal form of its hash code. */
  function FileName(url: Url): string
  {
    IntToString(HashCode(url) as int)
  }

  /** The file a url is cached in. */
  function CacheFile(cacheDir: Path, url: Url): (f: Path)
    ensures ChildOf(f, cacheDir) && f[|cacheDir|] == FileName(url)
  {
    cacheDir + [FileName(url)]
  }

  /** Two urls share a cache file exactly when their hash codes are equal. */
  lemma SameFileIffSameHash(cacheDir: Path, u: Url, w: Url)
    ensures CacheFile(cacheDir, u) == CacheFile(cacheDir, w) <==> HashCode(u) == HashCode(w)
  {
    IntToStringInjective(HashCode(u) as int, HashCode(w) as int);
    if CacheFile(cacheDir, u) == CacheFile(cacheDir, w) {
      assert CacheFile(cacheDir, u)[|cacheDir|] == FileName(u);
    }
  }

  /** Distinct urls can share a file: "Aa" and "BB" both land in the file named "2112". */
  lemma DistinctUrlsCollide(cacheDir: Path)
    ensures CacheFile(cacheDir, [65, 97]) == CacheFile(cacheDir, [66, 66]) == cacheDir + ["2112"]
  {
    HashCollision();
    assert NatDigits(2) == "2";
    assert NatDigits(21) == "21";
    assert NatDigits(211) == "211";
    assert NatDigits(2112) == "2112";
  }

  /** The disk after the constructor: the root is created, with its parents, if it does not exist. */
  function OpenCacheDir(d: Disk, st: Storage, granted: bool): (r: Disk)
    ensures Exists(d, CacheRoot(st)) ==> r == d
    ensures !Exists(d, CacheRoot(st)) && granted && (forall p | p in Ancestry(CacheRoot(st)) :: p !in d.files) ==> CacheRoot(st) in r.dirs
    ensures r.files == d.files
  {
    if Exists(d, CacheRoot(st)) then d else MakeDirs(d, CacheRoot(st), granted).1
  }

  /** The disk after `clear()`: nothing when the directory cannot be listed, else every removable file gone. */
  function ClearCacheDir(d: Disk, cacheDir: Path): (r: Disk)
    ensures cacheDir !in d.dirs ==> r == d
    ensures cacheDir in d.dirs ==> r == ClearDir(d, cacheDir)
  {
    if cacheDir in d.dirs then ClearDir(d, cacheDir) else d
  }

  class FileCache {
    const fs: FileSystem
    const cacheDir: Path

    /** `granted` is whether the platform lets the app create the directory. */
    constructor (st: Storage, fs: FileSystem, granted: bool)
      modifies fs
      ensures this.fs == fs && cacheDir == CacheRoot(st)
      ensures fs.State() == OpenCacheDir(old(fs.State()), st, granted)
    {
      this.fs := fs;
      cacheDir := CacheRoot(st);
      new;
      var present := fs.IsPresent(cacheDir);
      if !present {
        var _ := fs.Mkdirs(cacheDir, granted);
      }
    }

    /** `getFile` only builds a path; it reads and writes nothing. */
    function GetFile(url: Url): (f: Path)
      ensures ChildOf(f, cacheDir) && f[|cacheDir|] == FileName(url)
    {
      CacheFile(cacheDir, url)
    }

    /** Deletes every file of the directory in turn; a file that will not go is skipped. */
    method Clear()
      modifies fs
      ensures fs.State() == ClearCacheDir(old(fs.State()), cacheDir)
    {
      var listing := fs.ListFiles(cacheDir);
      if listing.None? {
        return;
      }
      var files := listing.value;
      ghost var d0 := fs.State();
      var i := 0;
      while i < |files|
        invariant 0 <= i <= |files|
        invariant fs.State() == DeleteEach(d0, files[..i])
      {
        var _ := fs.Delete(files[i]);
        assert files[..i + 1][..i] == files[..i];
        i := i + 1;
      }
      assert files[..i] == files;
      DeleteListingClears(d0, cacheDir, files);
    }
  }
}
