/**
 * The state `FrescoImageLoaderManager` keeps around the Fresco image pipeline,
 * as a value: the cache flags, the url-keyed `pendingImageLoad`, the calls made
 * into the pipeline and the views.
 */
module FrescoModel {
  import opened Wrappers
  import opened Model
  import opened ImageLoader

  datatype ResizeOptions = ResizeOptions(width: int, height: int)

  /** An `ImageRequest` built from a uri. */
  datatype ImageRequest = ImageRequest(uri: Url, resize: Option<ResizeOptions>)

  /** The builder in `subscribe`: resize options only for a positive width and height. */
  function BuildRequest(uri: Url, width: int, height: int): (r: ImageRequest)
    ensures r.uri == uri
    ensures r.resize.Some? <==> width > 0 && height > 0
    ensures r.resize.Some? ==> r.resize.value == ResizeOptions(width, height)
  {
    if width > 0 && height > 0 then ImageRequest(uri, Some(ResizeOptions(width, height)))
    else ImageRequest(uri, None)
  }

  /** The `DataSource` the pipeline returns for one fetch; only its identity matters here. */
  class DataSource {
    constructor ()
    {
    }
  }

  /** What the manager asks of the Fresco pipeline, in order. */
  datatype FrescoCall =
    | EvictFromMemoryCache(uri: Url)
    | EvictFromDiskCache(uri: Url)
    | FetchDecodedImage(request: ImageRequest, dataSource: DataSource)
    | SubscribeDataSource(dataSource: DataSource, uri: Url, imageView: ViewId)
    | Close(dataSource: DataSource)
    | ClearCaches

  datatype Fresco = Fresco(
    flags: Flags,
    pendingImageLoad: map<Url, DataSource>,
    calls: seq<FrescoCall>,
    screen: map<ViewId, Shown>)

  function Initial(flags: Flags, screen: map<ViewId, Shown>): Fresco
  {
    Fresco(flags, map[], [], screen)
  }

  /** The evictions `loadImage` asks for before it subscribes: one per tier whose flag is off. */
  function Evictions(flags: Flags, uri: Url): seq<FrescoCall>
  {
    (if flags.memoryCache then [] else [EvictFromMemoryCache(uri)])
    + (if flags.diskCache then [] else [EvictFromDiskCache(uri)])
  }

  /**
   * `subscribe` with `ds` the pipeline's new data source: fetch, subscribe, then
   * record it under the uri. `cached` is what the pipeline's bitmap memory cache
   * holds for the request: a hit finishes `ds` at once, and the subscriber, run
   * on the calling UI thread, handles the result before the data source is recorded.
   */
  function Subscribe(s: Fresco, uri: Url, width: int, height: int, imageView: ViewId, ds: DataSource, cached: Option<Bitmap>): Fresco
  {
    var called := s.(calls := s.calls + [FetchDecodedImage(BuildRequest(uri, width, height), ds), SubscribeDataSource(ds, uri, imageView)]);
    var answered := if cached.Some? then OnNewResult(called, uri, imageView, cached, false) else called;
    answered.(pendingImageLoad := answered.pendingImageLoad[uri := ds])
  }

  /**
   * `loadImage`: the placeholder, the evictions, then `subscribe` with width and
   * height 0. `cached` is what the memory cache held for the url; with the memory
   * flag off it has just been evicted, so no hit can answer.
   */
  function LoadImage(s: Fresco, im: ImageModel, ds: DataSource, cached: Option<Bitmap>): Fresco
  {
    var s1 := s.(screen := s.screen[im.imageView := Shown(Placeholder, im.url)],
                 calls := s.calls + Evictions(s.flags, im.url));
    Subscribe(s1, im.url, 0, 0, im.imageView, ds, if s.flags.memoryCache then cached else None)
  }

  /** `onNewResultImpl`: only a present, not recycled bitmap is shown and ends the pending load. */
  function OnNewResult(s: Fresco, uri: Url, imageView: ViewId, bitmap: Option<Bitmap>, recycled: bool): Fresco
  {
    if bitmap.Some? && !recycled then
      s.(screen := s.screen[imageView := Shown(Picture(bitmap.value), uri)],
         pendingImageLoad := s.pendingImageLoad - {uri})
    else s
  }

  /** `onFailureImpl`: the "no cover" image, and the pending load is dropped. */
  function OnFailure(s: Fresco, uri: Url, imageView: ViewId): Fresco
  {
    s.(screen := s.screen[imageView := Shown(NoCover, uri)],
       pendingImageLoad := s.pendingImageLoad - {uri})
  }

  function ClearCache(s: Fresco): Fresco
  {
    s.(calls := s.calls + [ClearCaches])
  }

  function OnViewDetachedFromWindow(s: Fresco, url: Url): Fresco
  {
    if url in s.pendingImageLoad then
      s.(calls := s.calls + [Close(s.pendingImageLoad[url])], pendingImageLoad := s.pendingImageLoad - {url})
    else s
  }

  function SetMemoryCache(s: Fresco, b: bool): Fresco { s.(flags := WithMemoryCache(s.flags, b)) }
  function SetDiskCache(s: Fresco, b: bool): Fresco { s.(flags := WithDiskCache(s.flags, b)) }

  // ---------------------------------------------------------------------------
  // What the bookkeeping promises

  /** `subscribe` records the new data source under the uri, replacing any earlier one; other uris keep theirs. */
  lemma SubscribeRecords(s: Fresco, uri: Url, width: int, height: int, imageView: ViewId, ds: DataSource, cached: Option<Bitmap>)
    ensures var s' := Subscribe(s, uri, width, height, imageView, ds, cached);
            s'.pendingImageLoad[uri] == ds
            && (forall u | u != uri :: (u in s'.pendingImageLoad <==> u in s.pendingImageLoad))
            && (forall u | u != uri && u in s.pendingImageLoad :: s'.pendingImageLoad[u] == s.pendingImageLoad[u])
            && s'.calls == s.calls + [FetchDecodedImage(BuildRequest(uri, width, height), ds), SubscribeDataSource(ds, uri, imageView)]
    ensures cached.None? ==> Subscribe(s, uri, width, height, imageView, ds, cached).screen == s.screen
    ensures cached.Some? ==> Subscribe(s, uri, width, height, imageView, ds, cached).screen == s.screen[imageView := Shown(Picture(cached.value), uri)]
  {
  }

  /**
   * A result ends the pending load exactly when it carries a usable bitmap: a
   * missing or recycled one leaves the entry, and the view, as they were.
   */
  lemma ResultHandling(s: Fresco, uri: Url, imageView: ViewId, bitmap: Option<Bitmap>, recycled: bool)
    ensures var s' := OnNewResult(s, uri, imageView, bitmap, recycled);
            (uri in s'.pendingImageLoad <==> uri in s.pendingImageLoad && (bitmap.None? || recycled))
            && (bitmap.None? || recycled ==> s' == s)
            && (bitmap.Some? && !recycled ==> s'.screen[imageView].content == Picture(bitmap.value))
  {
  }

  lemma FailureUnregisters(s: Fresco, uri: Url, imageView: ViewId)
    ensures uri !in OnFailure(s, uri, imageView).pendingImageLoad
    ensures OnFailure(s, uri, imageView).screen[imageView].content == NoCover
  {
  }

  /** Detaching a registered url closes its data source and drops it; an unregistered url changes nothing. */
  lemma DetachCloses(s: Fresco, url: Url)
    ensures url in s.pendingImageLoad ==> OnViewDetachedFromWindow(s, url).calls == s.calls + [Close(s.pendingImageLoad[url])]
    ensures url !in OnViewDetachedFromWindow(s, url).pendingImageLoad
    ensures url !in s.pendingImageLoad ==> OnViewDetachedFromWindow(s, url) == s
  {
  }

  /**
   * `loadImage` shows the placeholder, issues the evictions for the tiers that
   * are off before anything else, then fetches without resizing and subscribes.
   * By the time it returns the view shows the cached bitmap on a memory hit
   * (memory flag on), and the placeholder otherwise.
   */
  lemma {:induction false} LoadImageCalls(s: Fresco, im: ImageModel, ds: DataSource, cached: Option<Bitmap>)
    ensures var s' := LoadImage(s, im, ds, cached);
            s'.calls == s.calls + Evictions(s.flags, im.url)
                        + [FetchDecodedImage(ImageRequest(im.url, None), ds), SubscribeDataSource(ds, im.url, im.imageView)]
            && s'.pendingImageLoad == s.pendingImageLoad[im.url := ds]
            && s'.screen[im.imageView] ==
                 Shown(if s.flags.memoryCache && cached.Some? then Picture(cached.value) else Placeholder, im.url)
  {
    var e := Evictions(s.flags, im.url);
    var tail := [FetchDecodedImage(BuildRequest(im.url, 0, 0), ds), SubscribeDataSource(ds, im.url, im.imageView)];
    assert BuildRequest(im.url, 0, 0) == ImageRequest(im.url, None);
    assert s.calls + e + tail == (s.calls + e) + tail;
  }

  /**
   * A memory hit is handled inside `subscribe`, before the put: the finished
   * data source stays recorded as pending, and a later detach closes it.
   */
  lemma MemoryHitStaysPending(s: Fresco, im: ImageModel, ds: DataSource, b: Bitmap)
    requires s.flags.memoryCache
    ensures var s' := LoadImage(s, im, ds, Some(b));
            s'.screen[im.imageView] == Shown(Picture(b), im.url)
            && s'.pendingImageLoad[im.url] == ds
            && OnViewDetachedFromWindow(s', im.url).calls == s'.calls + [Close(ds)]
  {
    LoadImageCalls(s, im, ds, Some(b));
  }

  /** The evictions match the flags: one for each tier that is off, memory first. */
  lemma EvictionsFollowFlags(flags: Flags, uri: Url)
    ensures EvictFromMemoryCache(uri) in Evictions(flags, uri) <==> !flags.memoryCache
    ensures EvictFromDiskCache(uri) in Evictions(flags, uri) <==> !flags.diskCache
    ensures |Evictions(flags, uri)| == (if flags.memoryCache then 0 else 1) + (if flags.diskCache then 0 else 1)
    ensures !flags.memoryCache ==> Evictions(flags, uri)[0] == EvictFromMemoryCache(uri)
  {
  }
}

/** `FrescoImageLoaderManager`: its fields change in place, as FrescoModel describes. */
module FrescoLoader {
  import opened Wrappers
  import opened Model
  import opened ImageLoader
  import opened FrescoModel

  class FrescoImageLoaderManager {
    const base: ImageLoaderManager
    const views: Views

    var pendingImageLoad: map<Url, DataSource>
    /** The calls made into the image pipeline so far. */
    var calls: seq<FrescoCall>

    function State(): Fresco
      reads this, base, views
    {
      Fresco(base.CurrentFlags(), pendingImageLoad, calls, views.shown)
    }

    constructor (useDiskCache: bool, useMemoryCache: bool, views: Views)
      ensures State() == Initial(Flags(useDiskCache, useMemoryCache), views.shown)
      ensures fresh(base) && this.views == views
    {
      base := new ImageLoaderManager(useDiskCache, useMemoryCache);
      this.views := views;
      pendingImageLoad := map[];
      calls := [];
    }

    /** `cached` is what the pipeline's memory cache holds for the url before the evictions. */
    method LoadImage(im: ImageModel, cached: Option<Bitmap>)
      modifies this, views
      ensures im.url in pendingImageLoad && fresh(pendingImageLoad[im.url])
      ensures State() == FrescoModel.LoadImage(old(State()), im, pendingImageLoad[im.url], cached)
    {
      views.Set(im.imageView, Placeholder, im.url);
      if !base.memoryCache {
        calls := calls + [EvictFromMemoryCache(im.url)];
      }
      if !base.diskCache {
        calls := calls + [EvictFromDiskCache(im.url)];
      }
      Subscribe(im.url, 0, 0, im.imageView, if base.memoryCache then cached else None);
    }

    /** `cached` is what the pipeline's memory cache holds for the request. */
    method Subscribe(uri: Url, width: int, height: int, imageView: ViewId, cached: Option<Bitmap>)
      modifies this, views
      ensures uri in pendingImageLoad && fresh(pendingImageLoad[uri])
      ensures State() == FrescoModel.Subscribe(old(State()), uri, width, height, imageView, pendingImageLoad[uri], cached)
    {
      var request := ImageRequest(uri, None);
      if width > 0 && height > 0 {
        request := request.(resize := Some(ResizeOptions(width, height)));
      }
      var dataSource := new DataSource();
      calls := calls + [FetchDecodedImage(request, dataSource)];
      calls := calls + [SubscribeDataSource(dataSource, uri, imageView)];
      // a finished data source calls the subscriber back on this thread
      if cached.Some? {
        OnNewResult(uri, imageView, cached, false);
      }
      pendingImageLoad := pendingImageLoad[uri := dataSource];
    }

    /** The subscriber's `onNewResultImpl`, called by the pipeline for the load of `uri` into `imageView`. */
    method OnNewResult(uri: Url, imageView: ViewId, bitmap: Option<Bitmap>, recycled: bool)
      modifies this, views
      ensures State() == FrescoModel.OnNewResult(old(State()), uri, imageView, bitmap, recycled)
    {
      if bitmap.Some? && !recycled {
        views.Set(imageView, Picture(bitmap.value), uri);
        pendingImageLoad := pendingImageLoad - {uri};
      }
    }

    method OnFailure(uri: Url, imageView: ViewId)
      modifies this, views
      ensures State() == FrescoModel.OnFailure(old(State()), uri, imageView)
    {
      views.Set(imageView, NoCover, uri);
      pendingImageLoad := pendingImageLoad - {uri};
    }

    method ClearCache()
      modifies this
      ensures State() == FrescoModel.ClearCache(old(State()))
    {
      calls := calls + [ClearCaches];
    }

    method OnViewDetachedFromWindow(url: Url)
      modifies this
      ensures State() == FrescoModel.OnViewDetachedFromWindow(old(State()), url)
    {
      if url in pendingImageLoad {
        var ds := pendingImageLoad[url];
        calls := calls + [Close(ds)];
        pendingImageLoad := pendingImageLoad - {url};
        return;
      }
    }
  }
}
