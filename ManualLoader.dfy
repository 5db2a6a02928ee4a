/**
 * `ManualImageLoaderManager`: the hand-written loader. Its fields change in
 * place; every method is proved to change them exactly as the matching
 * function of LoaderSpec changes the value `State()`.
 */
module ManualLoader {
  import opened Wrappers
  import opened JavaIo
  import opened Model
  import opened ImageLoader
  import opened MemoryCaching
  import opened FileCaching
  import LoaderSpec

  class ManualImageLoaderManager {
    /** The `ImageLoaderManager` part of the object: the two flags. */
    const base: ImageLoaderManager
    const memoryCacheObject: MemoryCache
    const fileCache: FileCache
    /** The views the manager draws into. */
    const views: Views

    var imageViews: map<ViewId, Url>
    /** The executor's queue of submitted tasks. */
    var executorQueue: seq<LoaderSpec.PhotosLoader>
    /** Pool threads holding a fetched bitmap, before their second check. */
    var workers: seq<LoaderSpec.Worker>
    /** The UI handler's queue of posted runnables. */
    var handlerQueue: seq<LoaderSpec.Display>

    function State(): LoaderSpec.Manual
      reads this, base, memoryCacheObject, fileCache.fs, views
    {
      LoaderSpec.Manual(base.CurrentFlags(), fileCache.cacheDir, imageViews, memoryCacheObject.cache,
                        fileCache.fs.State(), executorQueue, workers, handlerQueue, views.shown)
    }

    constructor (useDiskCache: bool, useMemoryCache: bool, st: Storage, fs: FileSystem, granted: bool, views: Views)
      modifies fs
      ensures State() == LoaderSpec.Initial(Flags(useDiskCache, useMemoryCache), CacheRoot(st),
                                            OpenCacheDir(old(fs.State()), st, granted), old(views.shown))
      ensures fresh(base) && fresh(memoryCacheObject) && fresh(fileCache)
      ensures fileCache.fs == fs && this.views == views
    {
      base := new ImageLoaderManager(useDiskCache, useMemoryCache);
      memoryCacheObject := new MemoryCache();
      fileCache := new FileCache(st, fs, granted);
      this.views := views;
      imageViews := map[];
      executorQueue := [];
      workers := [];
      handlerQueue := [];
    }

    method LoadImage(im: ImageModel)
      modifies this, views
      ensures State() == LoaderSpec.LoadImage(old(State()), im)
    {
      var url := im.url;
      var imageView := im.imageView;
      imageViews := imageViews[imageView := url];
      if base.memoryCache {
        var bitmap := memoryCacheObject.GetImageFromCache(url);
        if bitmap.Some? {
          views.Set(imageView, Picture(bitmap.value), url);
          return;
        }
      }
      QueuePhoto(ImageModel(url, imageView));
      views.Set(imageView, Placeholder, url);
    }

    /** Submits a new task carrying the flags as they are now. */
    method QueuePhoto(im: ImageModel)
      modifies this
      ensures State() == LoaderSpec.QueuePhoto(old(State()), im)
    {
      executorQueue := executorQueue + [LoaderSpec.PhotosLoader(im, base.diskCache, base.memoryCache)];
    }

    method ImageViewReused(im: ImageModel) returns (reused: bool)
      ensures reused <==> im.imageView !in imageViews || imageViews[im.imageView] != im.url
      ensures reused == LoaderSpec.ImageViewReused(State(), im)
    {
      if im.imageView !in imageViews || imageViews[im.imageView] != im.url {
        return true;
      }
      return false;
    }

    /** Posts the display runnable to the UI handler. */
    method DisplayImage(bmp: Option<Bitmap>, im: ImageModel)
      modifies this
      ensures State() == LoaderSpec.DisplayImage(old(State()), bmp, im)
    {
      handlerQueue := handlerQueue + [LoaderSpec.Display(bmp, im)];
    }

    method AddMemoryCache(url: Url, bmp: Option<Bitmap>)
      modifies memoryCacheObject
      ensures State() == LoaderSpec.AddMemoryCache(old(State()), url, bmp)
      ensures !base.memoryCache ==> memoryCacheObject.cache == old(memoryCacheObject.cache)
    {
      if base.memoryCache {
        memoryCacheObject.AddImageToCache(url, bmp);
      }
    }

    method GetFileCache(url: Url) returns (f: Option<Path>)
      ensures f.Some? <==> base.diskCache
      ensures f.Some? ==> f.value == fileCache.GetFile(url)
      ensures f == LoaderSpec.GetFileCache(State(), url)
    {
      if base.diskCache {
        return Some(fileCache.GetFile(url));
      } else {
        return None;
      }
    }

    method ClearMemoryCache()
      modifies memoryCacheObject
      ensures State() == LoaderSpec.ClearMemoryCache(old(State()))
      ensures !base.memoryCache ==> memoryCacheObject.cache == old(memoryCacheObject.cache)
    {
      if base.memoryCache {
        memoryCacheObject.Clear();
      }
    }

    method ClearCache()
      modifies memoryCacheObject, fileCache.fs
      ensures State() == LoaderSpec.ClearCache(old(State()))
    {
      if base.memoryCache {
        memoryCacheObject.Clear();
      }
      if base.diskCache {
        fileCache.Clear();
      }
    }

    /** The manual loader keeps no per-url request to cancel. */
    method OnViewDetachedFromWindow(url: Url)
      ensures State() == old(State())
    {
    }

    // The executor's and the handler's side: which queued item goes next

    /** A pool thread takes a queued task (any one: the pool has several threads). */
    method TakeTask(i: nat) returns (task: LoaderSpec.PhotosLoader)
      requires i < |executorQueue|
      modifies this
      ensures task == old(executorQueue[i])
      ensures State() == old(State()).(queue := LoaderSpec.Remove(old(executorQueue), i))
    {
      task := executorQueue[i];
      executorQueue := LoaderSpec.Remove(executorQueue, i);
    }

    /** A task pauses between its fetch and its second check. */
    method Suspend(w: LoaderSpec.Worker)
      modifies this
      ensures State() == old(State()).(workers := old(workers) + [w])
    {
      workers := workers + [w];
    }

    method TakeWorker(i: nat) returns (w: LoaderSpec.Worker)
      requires i < |workers|
      modifies this
      ensures w == old(workers[i])
      ensures State() == old(State()).(workers := LoaderSpec.Remove(old(workers), i))
    {
      w := workers[i];
      workers := LoaderSpec.Remove(workers, i);
    }

    /** The UI looper runs a posted display runnable. */
    method HandleMessage(i: nat)
      requires i < |handlerQueue|
      modifies this, views
      ensures State() == LoaderSpec.HandleMessage(old(State()), i)
    {
      var d := handlerQueue[i];
      handlerQueue := LoaderSpec.Remove(handlerQueue, i);
      var reused := ImageViewReused(d.imageModel);
      if reused {
        return;
      }
      if d.bmp.Some? {
        views.Set(d.imageModel.imageView, Picture(d.bmp.value), d.imageModel.url);
      } else {
        views.Set(d.imageModel.imageView, Placeholder, d.imageModel.url);
      }
    }
  }
}
