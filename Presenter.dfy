/**
 * `MainPresenterImpl`: it owns the current image loader manager and the two
 * cache flags, which outlive every manager it builds.
 */
module Presenter {
  import opened Wrappers
  import opened Model
  import opened JavaIo
  import opened ImageLoader
  import opened FileCaching
  import LoaderSpec
  import ManualLoader
  import PicassoModel
  import PicassoLoader
  import FrescoModel
  import FrescoLoader
  import LibraryModel
  import LibraryLoaders

  datatype ImageDownloaderEngine = Manual | Picasso | Glide | Uil | Fresco

  /** The manager the presenter holds, by the class it was built from. */
  datatype ActiveManager =
    | ManualManager(manual: ManualLoader.ManualImageLoaderManager)
    | PicassoManager(picasso: PicassoLoader.PicassoImageLoaderManager)
    | LibraryManager(engine: ImageDownloaderEngine, library: LibraryLoaders.LibraryImageLoaderManager)
    | FrescoManager(fresco: FrescoLoader.FrescoImageLoaderManager)

  function EngineOf(a: ActiveManager): ImageDownloaderEngine
  {
    match a
    case ManualManager(_) => Manual
    case PicassoManager(_) => Picasso
    case LibraryManager(e, _) => e
    case FrescoManager(_) => Fresco
  }

  /** The `ImageLoaderManager` part of the manager, which holds its flags. */
  function Base(a: ActiveManager): ImageLoaderManager
  {
    match a
    case ManualManager(m) => m.base
    case PicassoManager(p) => p.base
    case LibraryManager(_, l) => l.base
    case FrescoManager(f) => f.base
  }

  /** The objects a manager owns, apart from the views, file system and cache directory it shares. */
  function Objects(a: ActiveManager): set<object>
  {
    match a
    case ManualManager(m) => {m, m.base, m.memoryCacheObject}
    case PicassoManager(p) => {p, p.base}
    case LibraryManager(_, l) => {l, l.base}
    case FrescoManager(f) => {f, f.base}
  }

  /** What the presenter asks of its manager and of its view, in order. */
  datatype PresenterCall =
    | Build(engine: ImageDownloaderEngine, flags: Flags)
    | ClearCacheCall
    | SetDiskCacheCall(on: bool)
    | SetMemoryCacheCall(on: bool)
    | LoadImageCall(im: ImageModel)
    | DetachCall(url: Url)
    | ResetAdapter

  class MainPresenterImpl {
    // What the `Context` gives the managers
    const views: Views
    const fs: FileSystem
    const appCache: PicassoLoader.AppCacheDir
    const storage: Storage
    /** Whether the platform lets the manual loader create its cache directory. */
    const granted: bool

    /** `null` until the first `setDownloadEngine`. */
    var imageLoaderManager: Option<ActiveManager>
    var useDiskCache: bool
    var useMemoryCache: bool
    ghost var trace: seq<PresenterCall>

    /** The manager is wired to the presenter's views, file system and cache directory. */
    ghost predicate Valid()
      reads this
    {
      imageLoaderManager.Some? ==>
        match imageLoaderManager.value
        case ManualManager(m) => m.views == views && m.fileCache.fs == fs
        case PicassoManager(p) => p.views == views && p.appCache == appCache
        case LibraryManager(e, _) => e == Glide || e == Uil
        case FrescoManager(f) => f.views == views
    }

    function ManagerObjects(): set<object>
      reads this
    {
      if imageLoaderManager.Some? then Objects(imageLoaderManager.value) else {}
    }

    constructor (views: Views, fs: FileSystem, appCache: PicassoLoader.AppCacheDir, storage: Storage, granted: bool)
      ensures Valid() && imageLoaderManager.None?
      ensures useDiskCache && useMemoryCache
      ensures this.views == views && this.fs == fs && this.appCache == appCache
      ensures this.storage == storage && this.granted == granted
      ensures trace == []
    {
      this.views := views;
      this.fs := fs;
      this.appCache := appCache;
      this.storage := storage;
      this.granted := granted;
      imageLoaderManager := None;
      useDiskCache := true;
      useMemoryCache := true;
      trace := [];
    }

    /** `cached` is what the library's memory cache holds for the url; only the Picasso and Fresco engines ask. */
    method LoadImage(im: ImageModel, cached: Option<Bitmap>)
      requires Valid() && imageLoaderManager.Some?
      modifies this, views, ManagerObjects()
      ensures Valid()
      ensures imageLoaderManager == old(imageLoaderManager)
      ensures useDiskCache == old(useDiskCache) && useMemoryCache == old(useMemoryCache)
      ensures trace == old(trace) + [LoadImageCall(im)]
      ensures match imageLoaderManager.value
        case ManualManager(m) => m.State() == LoaderSpec.LoadImage(old(m.State()), im)
        case PicassoManager(p) =>
          im.url in p.targetList && fresh(p.targetList[im.url])
          && p.State() == PicassoModel.LoadImage(old(p.State()), im, p.targetList[im.url], cached)
        case LibraryManager(_, l) => l.State() == LibraryModel.LoadImage(old(l.State()), im)
        case FrescoManager(f) =>
          im.url in f.pendingImageLoad && fresh(f.pendingImageLoad[im.url])
          && f.State() == FrescoModel.LoadImage(old(f.State()), im, f.pendingImageLoad[im.url], cached)
    {
      match imageLoaderManager.value {
        case ManualManager(m) => m.LoadImage(im);
        case PicassoManager(p) => p.LoadImage(im, cached);
        case LibraryManager(_, l) => l.LoadImage(im);
        case FrescoManager(f) => f.LoadImage(im, cached);
      }
      trace := trace + [LoadImageCall(im)];
    }

    method ClearCache()
      requires Valid() && imageLoaderManager.Some?
      modifies this, fs, appCache, ManagerObjects()
      ensures Valid()
      ensures imageLoaderManager == old(imageLoaderManager)
      ensures useDiskCache == old(useDiskCache) && useMemoryCache == old(useMemoryCache)
      ensures trace == old(trace) + [ClearCacheCall]
      ensures match imageLoaderManager.value
        case ManualManager(m) => m.State() == LoaderSpec.ClearCache(old(m.State()))
        case PicassoManager(p) => p.State() == PicassoModel.ClearCache(old(p.State()))
        case LibraryManager(_, l) => l.State() == LibraryModel.ClearCache(old(l.State()))
        case FrescoManager(f) => f.State() == FrescoModel.ClearCache(old(f.State()))
    {
      match imageLoaderManager.value {
        case ManualManager(m) => m.ClearCache();
        case PicassoManager(p) => p.ClearCache();
        case LibraryManager(_, l) => l.ClearCache();
        case FrescoManager(f) => f.ClearCache();
      }
      trace := trace + [ClearCacheCall];
    }

    /** Stores the flag, then hands the same value to the manager. */
    method SetMemoryCache(b: bool)
      requires Valid() && imageLoaderManager.Some?
      modifies this, ManagerObjects()
      ensures Valid()
      ensures imageLoaderManager == old(imageLoaderManager)
      ensures useMemoryCache == b && useDiskCache == old(useDiskCache)
      ensures trace == old(trace) + [SetMemoryCacheCall(b)]
      ensures Base(imageLoaderManager.value).CurrentFlags() == WithMemoryCache(old(Base(imageLoaderManager.value).CurrentFlags()), b)
      ensures match imageLoaderManager.value
        case ManualManager(m) => m.State() == LoaderSpec.SetMemoryCache(old(m.State()), b)
        case PicassoManager(p) => p.State() == PicassoModel.SetMemoryCache(old(p.State()), b)
        case LibraryManager(_, l) => l.State() == old(l.State()).(flags := WithMemoryCache(old(l.State()).flags, b))
        case FrescoManager(f) => f.State() == FrescoModel.SetMemoryCache(old(f.State()), b)
    {
      useMemoryCache := b;
      Base(imageLoaderManager.value).SetMemoryCache(b);
      trace := trace + [SetMemoryCacheCall(b)];
    }

    /** Stores the flag, then hands the same value to the manager. */
    method SetDiskCache(b: bool)
      requires Valid() && imageLoaderManager.Some?
      modifies this, ManagerObjects()
      ensures Valid()
      ensures imageLoaderManager == old(imageLoaderManager)
      ensures useDiskCache == b && useMemoryCache == old(useMemoryCache)
      ensures trace == old(trace) + [SetDiskCacheCall(b)]
      ensures Base(imageLoaderManager.value).CurrentFlags() == WithDiskCache(old(Base(imageLoaderManager.value).CurrentFlags()), b)
      ensures match imageLoaderManager.value
        case ManualManager(m) => m.State() == LoaderSpec.SetDiskCache(old(m.State()), b)
        case PicassoManager(p) => p.State() == PicassoModel.SetDiskCache(old(p.State()), b)
        case LibraryManager(_, l) => l.State() == old(l.State()).(flags := WithDiskCache(old(l.State()).flags, b))
        case FrescoManager(f) => f.State() == FrescoModel.SetDiskCache(old(f.State()), b)
    {
      useDiskCache := b;
      Base(imageLoaderManager.value).SetDiskCache(b);
      trace := trace + [SetDiskCacheCall(b)];
    }

    /** The `switch` of `setDownloadEngine`: a new manager of the chosen kind, built with the presenter's flags. */
    method BuildManager(engine: ImageDownloaderEngine)
      requires Valid()
      modifies this, fs
      ensures Valid()
      ensures imageLoaderManager.Some? && EngineOf(imageLoaderManager.value) == engine
      ensures fresh(Objects(imageLoaderManager.value))
      ensures useDiskCache == old(useDiskCache) && useMemoryCache == old(useMemoryCache)
      ensures trace == old(trace) + [Build(engine, Flags(useDiskCache, useMemoryCache))]
      ensures match imageLoaderManager.value
        case ManualManager(m) =>
          m.State() == LoaderSpec.Initial(Flags(useDiskCache, useMemoryCache), CacheRoot(storage),
                                          OpenCacheDir(old(fs.State()), storage, granted), views.shown)
        case PicassoManager(p) =>
          p.State() == PicassoModel.Initial(Flags(useDiskCache, useMemoryCache), appCache.entries, views.shown)
        case LibraryManager(_, l) =>
          l.State() == LibraryModel.Library(Flags(useDiskCache, useMemoryCache), [])
        case FrescoManager(f) =>
          f.State() == FrescoModel.Initial(Flags(useDiskCache, useMemoryCache), views.shown)
    {
      match engine {
        case Manual =>
          var m := new ManualLoader.ManualImageLoaderManager(useDiskCache, useMemoryCache, storage, fs, granted, views);
          imageLoaderManager := Some(ManualManager(m));
        case Picasso =>
          var p := new PicassoLoader.PicassoImageLoaderManager(useDiskCache, useMemoryCache, views, appCache);
          imageLoaderManager := Some(PicassoManager(p));
        case Glide =>
          var l := new LibraryLoaders.LibraryImageLoaderManager(useDiskCache, useMemoryCache);
          imageLoaderManager := Some(LibraryManager(Glide, l));
        case Uil =>
          var l := new LibraryLoaders.LibraryImageLoaderManager(useDiskCache, useMemoryCache);
          imageLoaderManager := Some(LibraryManager(Uil, l));
        case Fresco =>
          var f := new FrescoLoader.FrescoImageLoaderManager(useDiskCache, useMemoryCache, views);
          imageLoaderManager := Some(FrescoManager(f));
      }
      trace := trace + [Build(engine, Flags(useDiskCache, useMemoryCache))];
    }

    /**
     * Replaces the manager with a new one of the chosen kind, built with the
     * presenter's flags; then clears its caches, re-applies both flags and
     * resets the adapter. The flags themselves do not change. The old manager
     * is not shut down: work it had queued still runs against the shared views
     * and disk, and this model does not follow it.
     */
    method SetDownloadEngine(engine: ImageDownloaderEngine)
      requires Valid()
      modifies this, fs, appCache
      ensures Valid()
      ensures imageLoaderManager.Some? && EngineOf(imageLoaderManager.value) == engine
      ensures fresh(Objects(imageLoaderManager.value))
      ensures useDiskCache == old(useDiskCache) && useMemoryCache == old(useMemoryCache)
      ensures Base(imageLoaderManager.value).CurrentFlags() == Flags(useDiskCache, useMemoryCache)
      ensures trace == old(trace) + [Build(engine, Flags(useDiskCache, useMemoryCache)), ClearCacheCall,
                                     SetDiskCacheCall(useDiskCache), SetMemoryCacheCall(useMemoryCache), ResetAdapter]
      ensures match imageLoaderManager.value
        case ManualManager(m) =>
          m.State() == LoaderSpec.ClearCache(LoaderSpec.Initial(Flags(useDiskCache, useMemoryCache), CacheRoot(storage),
                                                                OpenCacheDir(old(fs.State()), storage, granted), old(views.shown)))
        case PicassoManager(p) =>
          p.State() == PicassoModel.ClearCache(PicassoModel.Initial(Flags(useDiskCache, useMemoryCache), old(appCache.entries), old(views.shown)))
        case LibraryManager(_, l) =>
          l.State() == LibraryModel.Library(Flags(useDiskCache, useMemoryCache), [LibraryModel.ClearCaches])
        case FrescoManager(f) =>
          f.State() == FrescoModel.ClearCache(FrescoModel.Initial(Flags(useDiskCache, useMemoryCache), old(views.shown)))
    {
      BuildManager(engine);

      ClearCache();
      SetDiskCache(useDiskCache);
      SetMemoryCache(useMemoryCache);

      // mView.onResetAdapter()
      trace := trace + [ResetAdapter];
    }

    method OnViewDetachedFromWindow(url: Url)
      requires Valid() && imageLoaderManager.Some?
      modifies this, ManagerObjects()
      ensures Valid()
      ensures imageLoaderManager == old(imageLoaderManager)
      ensures useDiskCache == old(useDiskCache) && useMemoryCache == old(useMemoryCache)
      ensures trace == old(trace) + [DetachCall(url)]
      ensures match imageLoaderManager.value
        case ManualManager(m) => m.State() == old(m.State())
        case PicassoManager(p) => p.State() == PicassoModel.OnViewDetachedFromWindow(old(p.State()), url)
        case LibraryManager(_, l) => l.State() == old(l.State())
        case FrescoManager(f) => f.State() == FrescoModel.OnViewDetachedFromWindow(old(f.State()), url)
    {
      match imageLoaderManager.value {
        case ManualManager(m) => m.OnViewDetachedFromWindow(url);
        case PicassoManager(p) => p.OnViewDetachedFromWindow(url);
        case LibraryManager(_, l) => l.OnViewDetachedFromWindow(url);
        case FrescoManager(f) => f.OnViewDetachedFromWindow(url);
      }
      trace := trace + [DetachCall(url)];
    }
  }
}
