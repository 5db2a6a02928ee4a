/**
 * The manual image loader as a state machine over values. The executor's
 * worker threads and the UI thread's handler become queues of pending work,
 * and each step below runs one piece of that work atomically:
 *   - `LoadImage` is `ManualImageLoaderManager.loadImage` on the UI thread;
 *   - `StartTask` is a pool thread taking a queued `PhotosLoader` and running it
 *     up to its second staleness check (first check, fetch, memory-cache write);
 *   - `FinishTask` is that thread going on: the second check and the post;
 *   - `HandleMessage` is the UI looper running a posted display runnable.
 * The methods of ManualImageLoaderManager and PhotosLoader are proved to
 * change the objects exactly as these functions change the value.
 */
module LoaderSpec {
  import opened Wrappers
  import opened JavaLang
  import opened JavaIo
  import opened Model
  import opened ImageLoader
  import opened MemoryCaching
  import opened FileCaching
  import opened Sampling

  /** A `PhotosLoader` runnable: the request and the manager's flags when it was queued. */
  datatype PhotosLoader = PhotosLoader(imageModel: ImageModel, useDiskCache: bool, useMemoryCache: bool)

  /** A `PhotosLoader` past its fetch, holding the bitmap, about to check for staleness again. */
  datatype Worker = Worker(loader: PhotosLoader, bmp: Option<Bitmap>)

  /** The runnable `displayImage` posts to the UI handler. */
  datatype Display = Display(bmp: Option<Bitmap>, imageModel: ImageModel)

  /** `outWidth` and `outHeight` of a bounds-only decode (-1 each when the bytes are no image). */
  datatype Dims = Dims(outWidth: int32, outHeight: int32)

  /**
   * `BitmapFactory`: the bounds of encoded bytes, and a decode at a sample size,
   * which gives a bitmap or `null`, or throws.
   */
  datatype Codec = Codec(bounds: Bytes -> Dims, decode: (Bytes, int) -> Outcome<Option<Bitmap>>)

  /** Opening a connection to a url and reading it: the chunks read, or the exception thrown. */
  type Network = Url -> Outcome<seq<Bytes>>

  /** Everything the manual loader reads or changes. */
  datatype Manual = Manual(
    flags: Flags,                           // the base class's diskCache / memoryCache
    cacheDir: Path,                         // FileCache's directory
    imageViews: map<ViewId, Url>,           // the url each view was last asked to show
    memory: map<Url, Option<Bitmap>>,       // the MemoryCache
    disk: Disk,                             // the file system holding the FileCache directory
    queue: seq<PhotosLoader>,               // the executor's queue of submitted tasks
    workers: seq<Worker>,                   // tasks between their fetch and their second check
    posted: seq<Display>,                   // the UI handler's message queue
    screen: map<ViewId, Shown>)             // what the views show

  /** A freshly built manager: nothing recorded, cached, queued or posted. */
  function Initial(flags: Flags, cacheDir: Path, disk: Disk, screen: map<ViewId, Shown>): (s: Manual)
    ensures s.imageViews == map[] && s.memory == map[] && s.queue == [] && s.workers == [] && s.posted == []
  {
    Manual(flags, cacheDir, map[], map[], disk, [], [], [], screen)
  }

  function Remove<T>(s: seq<T>, i: nat): (r: seq<T>)
    requires i < |s|
    ensures |r| == |s| - 1
  {
    s[..i] + s[i + 1..]
  }

  /** `imageViewReused`: the view has been given over to another url, or to none. */
  predicate ImageViewReused(s: Manual, im: ImageModel)
  {
    im.imageView !in s.imageViews || s.imageViews[im.imageView] != im.url
  }

  /** `queuePhoto`: submits a task that captures the current flags. */
  function QueuePhoto(s: Manual, im: ImageModel): Manual
  {
    s.(queue := s.queue + [PhotosLoader(im, s.flags.diskCache, s.flags.memoryCache)])
  }

  /** `loadImage`. */
  function LoadImage(s: Manual, im: ImageModel): Manual
  {
    var s1 := s.(imageViews := s.imageViews[im.imageView := im.url]);
    if s.flags.memoryCache && Lookup(s.memory, im.url).Some? then
      s1.(screen := s1.screen[im.imageView := Shown(Picture(Lookup(s.memory, im.url).value), im.url)])
    else
      var s2 := QueuePhoto(s1, im);
      s2.(screen := s2.screen[im.imageView := Shown(Placeholder, im.url)])
  }

  /** `displayImage`: only posts; the runnable runs later. */
  function DisplayImage(s: Manual, bmp: Option<Bitmap>, im: ImageModel): Manual
  {
    s.(posted := s.posted + [Display(bmp, im)])
  }

  /** The posted runnable: draws the bitmap, or the placeholder for `null`, unless the view was reused. */
  function RunDisplay(s: Manual, d: Display): Manual
  {
    if ImageViewReused(s, d.imageModel) then s
    else
      var content := if d.bmp.Some? then Picture(d.bmp.value) else Placeholder;
      s.(screen := s.screen[d.imageModel.imageView := Shown(content, d.imageModel.url)])
  }

  function AddMemoryCache(s: Manual, url: Url, bmp: Option<Bitmap>): Manual
  {
    if s.flags.memoryCache then s.(memory := s.memory[url := bmp]) else s
  }

  function GetFileCache(s: Manual, url: Url): Option<Path>
  {
    if s.flags.diskCache then Some(CacheFile(s.cacheDir, url)) else None
  }

  function ClearMemoryCache(s: Manual): Manual
  {
    if s.flags.memoryCache then s.(memory := map[]) else s
  }

  function ClearCache(s: Manual): Manual
  {
    var s1 := ClearMemoryCache(s);
    if s.flags.diskCache then s1.(disk := ClearCacheDir(s1.disk, s.cacheDir)) else s1
  }

  function SetMemoryCache(s: Manual, b: bool): Manual
  {
    s.(flags := WithMemoryCache(s.flags, b))
  }

  function SetDiskCache(s: Manual, b: bool): Manual
  {
    s.(flags := WithDiskCache(s.flags, b))
  }

  /**
   * `decodeFile`: a bounds pass, the sample size, then the decode at that size.
   * A `null` file makes `new FileInputStream` throw NullPointerException, which
   * is not caught here; a missing file and an IOException give `null`.
   */
  function DecodeFile(d: Disk, codec: Codec, f: Option<Path>): (r: Outcome<Option<Bitmap>>)
    ensures f.None? ==> r == Raised(NullPointerException)
    ensures f.Some? && f.value !in d.files ==> r == Normal(None)
    ensures r != Raised(IOException)
  {
    match f
    case None => Raised(NullPointerException)
    case Some(p) =>
      if p !in d.files then Normal(None)
      else
        var data := d.files[p];
        var dims := codec.bounds(data);
        var decoded := codec.decode(data, SampleSize(dims.outWidth as int, dims.outHeight as int));
        if decoded == Raised(IOException) then Normal(None) else decoded
  }

  /** The `catch (Throwable)` of `getBitmap`: `null`, and an OutOfMemoryError also clears the memory cache. */
  function Failed(s: Manual, e: Throwable): (r: (Manual, Outcome<Option<Bitmap>>))
    ensures r.1 == Normal(None)
  {
    (if e == OutOfMemoryError then ClearMemoryCache(s) else s, Normal(None))
  }

  /** The `try` block of `getBitmap`: download, then either store and decode the file, or decode the bytes. */
  function Download(s: Manual, task: PhotosLoader, f: Option<Path>, net: Network, codec: Codec): (r: (Manual, Outcome<Option<Bitmap>>))
    ensures r.1.Normal?
    ensures r.0 == s.(disk := r.0.disk, memory := r.0.memory)
    ensures !task.useDiskCache ==> r.0.disk == s.disk
  {
    match net(task.imageModel.url)
    case Raised(e) => Failed(s, e)
    case Normal(chunks) =>
      if task.useDiskCache then
        match f
        case None => Failed(s, NullPointerException)
        case Some(p) =>
          match WriteFile(s.disk, p, Concat(chunks))
          case None => Failed(s, IOException)
          case Some(written) =>
            var s1 := s.(disk := written);
            match DecodeFile(written, codec, f)
            case Normal(b) => (s1, Normal(b))
            case Raised(e) => Failed(s1, e)
      else
        match codec.decode(Concat(chunks), 1)
        case Normal(b) => (s, Normal(b))
        case Raised(e) => Failed(s, e)
  }

  /**
   * `getBitmap`: the cached file first when the task uses the disk cache; an
   * exception from that first `decodeFile` leaves `getBitmap` (`Raised`).
   * Only the disk and the memory cache can change.
   */
  function GetBitmap(s: Manual, task: PhotosLoader, net: Network, codec: Codec): (r: (Manual, Outcome<Option<Bitmap>>))
    ensures r.0 == s.(disk := r.0.disk, memory := r.0.memory)
    ensures r.0.memory == s.memory || (s.flags.memoryCache && r.0.memory == map[])
    ensures r.1.Raised? ==> r.0 == s && task.useDiskCache
  {
    var f := GetFileCache(s, task.imageModel.url);
    if task.useDiskCache then
      match DecodeFile(s.disk, codec, f)
      case Raised(e) => (s, Raised(e))
      case Normal(Some(b)) => (s, Normal(Some(b)))
      case Normal(None) => Download(s, task, f, net, codec)
    else
      Download(s, task, f, net, codec)
  }

  /** `PhotosLoader.run` up to its second check: a `Worker` is left only when the fetch returned. */
  function Run(s: Manual, task: PhotosLoader, net: Network, codec: Codec): Manual
  {
    if ImageViewReused(s, task.imageModel) then s
    else
      var fetched := GetBitmap(s, task, net, codec);
      match fetched.1
      case Raised(_) => fetched.0
      case Normal(bmp) =>
        var s1 := if task.useMemoryCache then AddMemoryCache(fetched.0, task.imageModel.url, bmp) else fetched.0;
        s1.(workers := s1.workers + [Worker(task, bmp)])
  }

  /** The rest of `PhotosLoader.run`: post the display unless the view was reused meanwhile. */
  function Resume(s: Manual, w: Worker): Manual
  {
    if ImageViewReused(s, w.loader.imageModel) then s else DisplayImage(s, w.bmp, w.loader.imageModel)
  }

  function StartTask(s: Manual, i: nat, net: Network, codec: Codec): Manual
    requires i < |s.queue|
  {
    Run(s.(queue := Remove(s.queue, i)), s.queue[i], net, codec)
  }

  function FinishTask(s: Manual, i: nat): Manual
    requires i < |s.workers|
  {
    Resume(s.(workers := Remove(s.workers, i)), s.workers[i])
  }

  function HandleMessage(s: Manual, i: nat): Manual
    requires i < |s.posted|
  {
    RunDisplay(s.(posted := Remove(s.posted, i)), s.posted[i])
  }

  /**
   * One thing that can happen next; an index names the pending item that goes ahead.
   * A task that starts carries what the network delivers to it then, so two tasks
   * for one url may see different outcomes (a failure, then a success on a retry).
   */
  datatype Event =
    | Load(imageModel: ImageModel)
    | Start(task: nat, network: Network)
    | Finish(worker: nat)
    | Handle(message: nat)
    | MemoryFlag(on: bool)
    | DiskFlag(on: bool)
    | Clear

  function Step(s: Manual, e: Event, codec: Codec): Manual
  {
    match e
    case Load(im) => LoadImage(s, im)
    case Start(i, net) => if i < |s.queue| then StartTask(s, i, net, codec) else s
    case Finish(i) => if i < |s.workers| then FinishTask(s, i) else s
    case Handle(i) => if i < |s.posted| then HandleMessage(s, i) else s
    case MemoryFlag(b) => SetMemoryCache(s, b)
    case DiskFlag(b) => SetDiskCache(s, b)
    case Clear => ClearCache(s)
  }

  function Replay(s: Manual, es: seq<Event>, codec: Codec): Manual
    decreases |es|
  {
    if es == [] then s else Replay(Step(s, es[0], codec), es[1..], codec)
  }

  // ---------------------------------------------------------------------------
  // Properties

  /**
   * Every view that was asked for an image shows what a request for the url it
   * was last asked for put there: that request's placeholder or its result.
   * `forUrl` names the request, not where the pixels were read from: urls whose
   * hash codes agree share a cache file, so a disk hit for one may decode bytes
   * a task for the other wrote.
   */
  ghost predicate Consistent(s: Manual)
  {
    forall v | v in s.imageViews :: v in s.screen && s.screen[v].forUrl == s.imageViews[v]
  }

  /** `loadImage` records the view's url before anything else, replacing the earlier one. */
  lemma LoadImageRecords(s: Manual, im: ImageModel)
    ensures LoadImage(s, im).imageViews == s.imageViews[im.imageView := im.url]
    ensures LoadImage(s, im).memory == s.memory && LoadImage(s, im).disk == s.disk
  {
  }

  /** A memory hit shows the cached bitmap and queues nothing; otherwise one task is queued and the placeholder shown. */
  lemma LoadImageOutcome(s: Manual, im: ImageModel)
    ensures s.flags.memoryCache && Lookup(s.memory, im.url).Some? ==>
              LoadImage(s, im).queue == s.queue &&
              LoadImage(s, im).screen[im.imageView] == Shown(Picture(Lookup(s.memory, im.url).value), im.url)
    ensures !(s.flags.memoryCache && Lookup(s.memory, im.url).Some?) ==>
              LoadImage(s, im).queue == s.queue + [PhotosLoader(im, s.flags.diskCache, s.flags.memoryCache)] &&
              LoadImage(s, im).screen[im.imageView] == Shown(Placeholder, im.url)
  {
  }

  /** There is no de-duplication: two misses for the same url queue two tasks. */
  lemma NoCoalescing(s: Manual, a: ImageModel, b: ImageModel)
    requires a.url == b.url && !s.flags.memoryCache
    ensures LoadImage(LoadImage(s, a), b).queue == s.queue + [PhotosLoader(a, s.flags.diskCache, false), PhotosLoader(b, s.flags.diskCache, false)]
  {
  }

  /** `clearCache` clears each tier exactly when its flag is on. */
  lemma ClearCacheTiers(s: Manual)
    ensures ClearCache(s).memory == if s.flags.memoryCache then map[] else s.memory
    ensures ClearCache(s).disk == if s.flags.diskCache then ClearCacheDir(s.disk, s.cacheDir) else s.disk
    ensures ClearCache(s) == s.(memory := ClearCache(s).memory, disk := ClearCache(s).disk)
  {
  }

  /** A task whose view was reused before it started fetches nothing, caches nothing and posts nothing. */
  lemma StaleTaskDoesNothing(s: Manual, task: PhotosLoader, net: Network, codec: Codec)
    requires ImageViewReused(s, task.imageModel)
    ensures Run(s, task, net, codec) == s
  {
  }

  /** The result, even `null`, goes to the memory cache exactly when the task's flag (and the manager's) allow it. */
  lemma RunCachesResult(s: Manual, task: PhotosLoader, net: Network, codec: Codec)
    requires !ImageViewReused(s, task.imageModel)
    requires GetBitmap(s, task, net, codec).1.Normal?
    ensures var fetched := GetBitmap(s, task, net, codec);
            var after := Run(s, task, net, codec);
            after.memory == (if task.useMemoryCache && s.flags.memoryCache
                             then fetched.0.memory[task.imageModel.url := fetched.1.value]
                             else fetched.0.memory) &&
            after.workers == s.workers + [Worker(task, fetched.1.value)]
  {
  }

  /** A worker posts only if its view still belongs to its url, and then posts exactly its bitmap. */
  lemma ResumePosts(s: Manual, w: Worker)
    ensures ImageViewReused(s, w.loader.imageModel) ==> Resume(s, w) == s
    ensures !ImageViewReused(s, w.loader.imageModel) ==>
              Resume(s, w) == s.(posted := s.posted + [Display(w.bmp, w.loader.imageModel)])
  {
  }

  /** The display runnable draws nothing for a reused view, the bitmap otherwise, the placeholder for `null`. */
  lemma DisplayOutcome(s: Manual, d: Display)
    ensures ImageViewReused(s, d.imageModel) ==> RunDisplay(s, d) == s
    ensures !ImageViewReused(s, d.imageModel) ==>
              RunDisplay(s, d).screen[d.imageModel.imageView] ==
                Shown(if d.bmp.Some? then Picture(d.bmp.value) else Placeholder, d.imageModel.url)
  {
  }

  /** With the disk cache on and a decodable file, the bitmap comes from the file whatever the network does. */
  lemma DiskHitSkipsNetwork(s: Manual, task: PhotosLoader, net1: Network, net2: Network, codec: Codec, b: Bitmap)
    requires task.useDiskCache && s.flags.diskCache
    requires DecodeFile(s.disk, codec, Some(CacheFile(s.cacheDir, task.imageModel.url))) == Normal(Some(b))
    ensures GetBitmap(s, task, net1, codec) == GetBitmap(s, task, net2, codec) == (s, Normal(Some(b)))
  {
  }

  /** Without the disk cache the downloaded bytes are decoded once, at sample size 1, and never written. */
  lemma NoDiskDecodesBytes(s: Manual, task: PhotosLoader, net: Network, codec: Codec, chunks: seq<Bytes>)
    requires !task.useDiskCache && net(task.imageModel.url) == Normal(chunks)
    ensures var r := GetBitmap(s, task, net, codec);
            r.0.disk == s.disk &&
            match codec.decode(Concat(chunks), 1)
            case Normal(b) => r == (s, Normal(b))
            case Raised(e) => r == Failed(s, e)
  {
  }

  /** A failed download gives `null`; only an OutOfMemoryError also clears the memory cache. */
  lemma DownloadFailure(s: Manual, task: PhotosLoader, net: Network, codec: Codec, e: Throwable)
    requires net(task.imageModel.url) == Raised(e)
    requires task.useDiskCache ==> DecodeFile(s.disk, codec, GetFileCache(s, task.imageModel.url)) == Normal(None)
    ensures GetBitmap(s, task, net, codec) == (if e == OutOfMemoryError then ClearMemoryCache(s) else s, Normal(None))
  {
  }

  /**
   * A task queued with the disk cache on, run after the manager's disk flag was
   * turned off, gets a `null` file: `decodeFile` throws, `run` swallows it, and
   * the task ends with nothing cached and nothing posted.
   */
  lemma DiskFlagTurnedOffKillsTask(s: Manual, task: PhotosLoader, net: Network, codec: Codec)
    requires task.useDiskCache && !s.flags.diskCache
    ensures GetBitmap(s, task, net, codec) == (s, Raised(NullPointerException))
    ensures Run(s, task, net, codec) == s
  {
  }

  /** After a task stores a bitmap in the memory cache, loading the same url anywhere shows it at once. */
  lemma FetchedImageIsServedFromMemory(s: Manual, task: PhotosLoader, net: Network, codec: Codec, b: Bitmap, v: ViewId)
    requires task.useMemoryCache && s.flags.memoryCache
    requires !ImageViewReused(s, task.imageModel)
    requires GetBitmap(s, task, net, codec).1 == Normal(Some(b))
    ensures var after := Run(s, task, net, codec);
            var im := ImageModel(task.imageModel.url, v);
            Lookup(after.memory, im.url) == Some(b) &&
            LoadImage(after, im).queue == after.queue &&
            LoadImage(after, im).screen[v] == Shown(Picture(b), im.url)
  {
    var fetched := GetBitmap(s, task, net, codec);
    assert fetched.0.flags == s.flags;
  }

  /** Each step keeps every recorded view showing what a request for its recorded url put there. */
  lemma StepConsistent(s: Manual, e: Event, codec: Codec)
    requires Consistent(s)
    ensures Consistent(Step(s, e, codec))
  {
    match e
    case Load(im) =>
    case Start(i, net) =>
      if i < |s.queue| {
        var s0 := s.(queue := Remove(s.queue, i));
        var task := s.queue[i];
        if !ImageViewReused(s0, task.imageModel) {
          var fetched := GetBitmap(s0, task, net, codec);
          assert fetched.0.imageViews == s.imageViews && fetched.0.screen == s.screen;
        }
      }
    case Finish(i) =>
    case Handle(i) =>
    case MemoryFlag(b) =>
    case DiskFlag(b) =>
    case Clear =>
  }

  lemma {:induction false} ReplayConsistent(s: Manual, es: seq<Event>, codec: Codec)
    requires Consistent(s)
    ensures Consistent(Replay(s, es, codec))
    decreases |es|
  {
    if es != [] {
      StepConsistent(s, es[0], codec);
      ReplayConsistent(Step(s, es[0], codec), es[1..], codec);
    }
  }

  /** A new manager starts out consistent. */
  lemma InitialConsistent(flags: Flags, cacheDir: Path, disk: Disk, screen: map<ViewId, Shown>)
    ensures Consistent(Initial(flags, cacheDir, disk, screen))
  {
  }

  /** Only `loadImage` changes which url a view belongs to. */
  lemma StepKeepsViews(s: Manual, e: Event, codec: Codec)
    requires !e.Load?
    ensures Step(s, e, codec).imageViews == s.imageViews
  {
    if e.Start? && e.task < |s.queue| {
      var net := e.network;
      var s0 := s.(queue := Remove(s.queue, e.task));
      var task := s.queue[e.task];
      if !ImageViewReused(s0, task.imageModel) {
        var fetched := GetBitmap(s0, task, net, codec);
        assert fetched.0.imageViews == s.imageViews;
      }
    }
  }

  /**
   * The latest request for a view wins: however the pending tasks, workers and
   * display runnables of earlier requests interleave, as long as the view is
   * not asked for another url it shows the placeholder or the result of a
   * request for the url it was last asked for, never what a request for an
   * earlier url delivered. The guarantee is one manager's: work left
   * behind by a manager that `setDownloadEngine` replaced is not part of `s`.
   */
  lemma {:induction false} LatestRequestWins(s: Manual, es: seq<Event>, codec: Codec, v: ViewId)
    requires Consistent(s) && v in s.imageViews
    requires forall k | 0 <= k < |es| :: !(es[k].Load? && es[k].imageModel.imageView == v)
    ensures var after := Replay(s, es, codec);
            v in after.imageViews && after.imageViews[v] == s.imageViews[v] &&
            v in after.screen && after.screen[v].forUrl == s.imageViews[v]
    decreases |es|
  {
    if es != [] {
      var next := Step(s, es[0], codec);
      StepConsistent(s, es[0], codec);
      if es[0].Load? {
        assert next.imageViews == s.imageViews[es[0].imageModel.imageView := es[0].imageModel.url];
      } else {
        StepKeepsViews(s, es[0], codec);
      }
      assert forall k | 0 <= k < |es[1..]| :: es[1..][k] == es[k + 1];
      LatestRequestWins(next, es[1..], codec, v);
    }
  }
}
