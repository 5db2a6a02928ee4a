/** The base class every loader extends: the two cache flags. */
module ImageLoader {

  datatype Flags = Flags(diskCache: bool, memoryCache: bool)

  /** Replacing one flag leaves the other as it was. */
  function WithMemoryCache(f: Flags, b: bool): (r: Flags)
    ensures r.memoryCache == b && r.diskCache == f.diskCache
  {
    f.(memoryCache := b)
  }

  function WithDiskCache(f: Flags, b: bool): (r: Flags)
    ensures r.diskCache == b && r.memoryCache == f.memoryCache
  {
    f.(diskCache := b)
  }

  /** Setting a flag twice to the same value is setting it once. */
  lemma SettersIdempotent(f: Flags, b: bool)
    ensures WithMemoryCache(WithMemoryCache(f, b), b) == WithMemoryCache(f, b)
    ensures WithDiskCache(WithDiskCache(f, b), b) == WithDiskCache(f, b)
  {
  }

  /** The two setters touch different flags, so their order does not matter. */
  lemma SettersCommute(f: Flags, d: bool, m: bool)
    ensures WithDiskCache(WithMemoryCache(f, m), d) == WithMemoryCache(WithDiskCache(f, d), m) == Flags(d, m)
  {
  }

  /** `ImageLoaderManager`: the flags are fields that the setters assign. */
  class ImageLoaderManager {
    var diskCache: bool
    var memoryCache: bool

    constructor (useDiskCache: bool, useMemoryCache: bool)
      ensures diskCache == useDiskCache && memoryCache == useMemoryCache
    {
      diskCache := useDiskCache;
      memoryCache := useMemoryCache;
    }

    function CurrentFlags(): Flags
      reads this
    {
      Flags(diskCache, memoryCache)
    }

    method SetMemoryCache(b: bool)
      modifies this
      ensures CurrentFlags() == WithMemoryCache(old(CurrentFlags()), b)
    {
      memoryCache := b;
    }

    method SetDiskCache(b: bool)
      modifies this
      ensures CurrentFlags() == WithDiskCache(old(CurrentFlags()), b)
    {
      diskCache := b;
    }
  }
}
