/**
 * `GlideImageLoaderManager` and `UilImageLoaderManager` hand every request to
 * their library, configured from the two flags; only the calls they make are
 * kept here.
 */
module LibraryModel {
  import opened Model
  import opened ImageLoader

  /** A request handed to the library with the flags in force, or a request to empty both of its caches. */
  datatype LibraryCall = Load(request: ImageModel, flags: Flags) | ClearCaches

  datatype Library = Library(flags: Flags, calls: seq<LibraryCall>)

  function LoadImage(s: Library, im: ImageModel): Library
  {
    s.(calls := s.calls + [Load(im, s.flags)])
  }

  function ClearCache(s: Library): Library
  {
    s.(calls := s.calls + [ClearCaches])
  }

  /** Every request the library received carries the flags that were set when it was made. */
  lemma {:induction false} LoadCarriesFlags(s: Library, im: ImageModel, b: bool)
    ensures LoadImage(s.(flags := WithMemoryCache(s.flags, b)), im).calls[|s.calls|] == Load(im, Flags(s.flags.diskCache, b))
    ensures LoadImage(s.(flags := WithDiskCache(s.flags, b)), im).calls[|s.calls|] == Load(im, Flags(b, s.flags.memoryCache))
  {
  }

}

/** The two library-backed managers: the flags of the base class and the calls made so far. */
module LibraryLoaders {
  import opened Model
  import opened ImageLoader
  import opened LibraryModel

  class LibraryImageLoaderManager {
    const base: ImageLoaderManager
    var calls: seq<LibraryCall>

    function State(): Library
      reads this, base
    {
      Library(base.CurrentFlags(), calls)
    }

    constructor (useDiskCache: bool, useMemoryCache: bool)
      ensures State() == Library(Flags(useDiskCache, useMemoryCache), [])
      ensures fresh(base)
    {
      base := new ImageLoaderManager(useDiskCache, useMemoryCache);
      calls := [];
    }

    method LoadImage(im: ImageModel)
      modifies this
      ensures State() == LibraryModel.LoadImage(old(State()), im)
    {
      calls := calls + [Load(im, base.CurrentFlags())];
    }

    method ClearCache()
      modifies this
      ensures State() == LibraryModel.ClearCache(old(State()))
    {
      calls := calls + [ClearCaches];
    }

    /** Neither library needs the detach notification. */
    method OnViewDetachedFromWindow(url: Url)
      ensures State() == old(State())
    {
    }
  }
}
