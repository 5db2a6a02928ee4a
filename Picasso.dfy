/**
 * The state `PicassoImageLoaderManager` keeps around the Picasso library, as a
 * value: the cache flags, the url-keyed `targetList`, the calls made into the
 * library, the application's cache directory and the views.
 */
module PicassoModel {
  import opened Wrappers
  import opened Model
  import opened ImageLoader

  // ---------------------------------------------------------------------------
  // The request `loadImage` configures

  datatype MemoryPolicy = MemoryNoCache | MemoryNoStore
  datatype NetworkPolicy = NetworkNoCache | NetworkNoStore

  /** A `RequestCreator` after `loadImage` configured it (placeholder, error image and priority are fixed). */
  datatype Request = Request(url: Url, memoryPolicy: set<MemoryPolicy>, networkPolicy: set<NetworkPolicy>)

  /** The policies the flags select: a flag that is off adds both its no-cache and its no-store policy. */
  function RequestFor(url: Url, flags: Flags): (r: Request)
    ensures r.url == url
  {
    Request(url,
            if flags.memoryCache then {} else {MemoryNoCache, MemoryNoStore},
            if flags.diskCache then {} else {NetworkNoCache, NetworkNoStore})
  }

  predicate ReadsMemoryCache(r: Request) { MemoryNoCache !in r.memoryPolicy }
  predicate StoresInMemoryCache(r: Request) { MemoryNoStore !in r.memoryPolicy }
  predicate ReadsDiskCache(r: Request) { NetworkNoCache !in r.networkPolicy }
  predicate StoresOnDisk(r: Request) { NetworkNoStore !in r.networkPolicy }

  /** Each tier is read from and written to exactly when its flag is on. */
  lemma PoliciesFollowFlags(url: Url, flags: Flags)
    ensures ReadsMemoryCache(RequestFor(url, flags)) <==> flags.memoryCache
    ensures StoresInMemoryCache(RequestFor(url, flags)) <==> flags.memoryCache
    ensures ReadsDiskCache(RequestFor(url, flags)) <==> flags.diskCache
    ensures StoresOnDisk(RequestFor(url, flags)) <==> flags.diskCache
  {
  }

  /** The anonymous `Target` `loadImage` creates: it remembers the url and the view it serves. */
  class Target {
    const url: Url
    const imageView: ViewId

    constructor (url: Url, imageView: ViewId)
      ensures this.url == url && this.imageView == imageView
    {
      this.url := url;
      this.imageView := imageView;
    }
  }

  /** What the manager asks of the Picasso library, in order. */
  datatype PicassoCall =
    | Into(request: Request, target: Target)
    | CancelRequest(target: Target)
    | ClearMemoryCache

  // ---------------------------------------------------------------------------
  // The application's cache directory and `deleteDir`

  /** An entry of a directory; `deletable` is whether `File.delete()` succeeds on it once it is empty. */
  datatype FsNode =
    | File(name: string, deletable: bool)
    | Directory(name: string, children: seq<FsNode>, deletable: bool)

  /** Everything in the tree, the node itself included, can be deleted. */
  predicate AllDeletable(n: FsNode)
    decreases n
  {
    n.deletable && (n.Directory? ==> forall i | 0 <= i < |n.children| :: AllDeletable(n.children[i]))
  }

  /**
   * `deleteDir(n)`: `None` when it returns true (the node is gone), otherwise
   * what is left of the node. A directory's children go in listing order; the
   * first one that fails stops the walk, and the directory itself is deleted
   * only once all of them went.
   */
  function DeleteTree(n: FsNode): (r: Option<FsNode>)
    ensures r.Some? ==> r.value.name == n.name && r.value.Directory? == n.Directory?
    decreases n, 1
  {
    match n
    case File(_, deletable) => if deletable then None else Some(n)
    case Directory(name, children, deletable) =>
      var rest := DeleteChildren(n, children);
      if rest != [] then Some(Directory(name, rest, deletable))
      else if deletable then None
      else Some(Directory(name, [], deletable))
  }

  /** The children of `parent` that remain after deleting `cs` (a suffix of its children) in order. */
  function DeleteChildren(parent: FsNode, cs: seq<FsNode>): seq<FsNode>
    requires parent.Directory? && forall c | c in cs :: c in parent.children
    decreases parent, 0, |cs|
  {
    if cs == [] then []
    else
      assert cs[0] in parent.children;
      match DeleteTree(cs[0])
      case None => DeleteChildren(parent, cs[1..])
      case Some(left) => [left] + cs[1..]
  }

  /** The first child that will not go is kept (what is left of it) together with every child after it, untouched. */
  lemma {:induction false} FirstFailureStops(parent: FsNode, cs: seq<FsNode>, i: nat)
    requires parent.Directory? && forall c | c in cs :: c in parent.children
    requires i < |cs| && DeleteTree(cs[i]).Some?
    requires forall j | 0 <= j < i :: DeleteTree(cs[j]).None?
    ensures DeleteChildren(parent, cs) == [DeleteTree(cs[i]).value] + cs[i + 1..]
    decreases i
  {
    if i > 0 {
      assert DeleteTree(cs[0]).None?;
      FirstFailureStops(parent, cs[1..], i - 1);
      assert cs[1..][i - 1 + 1..] == cs[i + 1..];
    }
  }

  /** When every child goes, all children are deleted. */
  lemma {:induction false} AllChildrenGo(parent: FsNode, cs: seq<FsNode>)
    requires parent.Directory? && forall c | c in cs :: c in parent.children
    requires forall j | 0 <= j < |cs| :: DeleteTree(cs[j]).None?
    ensures DeleteChildren(parent, cs) == []
    decreases |cs|
  {
    if cs != [] {
      assert DeleteTree(cs[0]).None?;
      AllChildrenGo(parent, cs[1..]);
    }
  }

  /** Once all children are gone, the result is that of deleting the directory itself. */
  lemma ChildrenGoneThenSelf(n: FsNode)
    requires n.Directory?
    requires forall j | 0 <= j < |n.children| :: DeleteTree(n.children[j]).None?
    ensures DeleteTree(n).None? <==> n.deletable
  {
    AllChildrenGo(n, n.children);
  }

  /** Some child is left over exactly when some child will not go. */
  lemma {:induction false} ChildrenLeft(parent: FsNode, cs: seq<FsNode>)
    requires parent.Directory? && forall c | c in cs :: c in parent.children
    ensures DeleteChildren(parent, cs) == [] <==> forall j | 0 <= j < |cs| :: DeleteTree(cs[j]).None?
    decreases |cs|
  {
    if cs != [] {
      ChildrenLeft(parent, cs[1..]);
      forall j | 0 <= j < |cs[1..]| ensures cs[1..][j] == cs[j + 1] {
      }
    }
  }

  /** `deleteDir` returns true exactly when everything in the tree is deletable. */
  lemma {:induction false} DeleteTreeIffAllDeletable(n: FsNode)
    ensures DeleteTree(n).None? <==> AllDeletable(n)
    decreases n
  {
    if n.Directory? {
      ChildrenLeft(n, n.children);
      forall j | 0 <= j < |n.children|
        ensures DeleteTree(n.children[j]).None? <==> AllDeletable(n.children[j])
      {
        DeleteTreeIffAllDeletable(n.children[j]);
      }
    }
  }

  const PICASSO_CACHE: string := "picasso-cache"

  /**
   * `clearDiskCache` over the entries of the application's cache directory:
   * false, and nothing deleted, unless "picasso-cache" exists and is a directory.
   */
  function ClearDiskCache(entries: map<string, FsNode>): (r: (bool, map<string, FsNode>))
    ensures !(PICASSO_CACHE in entries && entries[PICASSO_CACHE].Directory?) ==> r == (false, entries)
    ensures PICASSO_CACHE in entries && entries[PICASSO_CACHE].Directory? ==> r.0 == AllDeletable(entries[PICASSO_CACHE])
    ensures forall k | k != PICASSO_CACHE :: (k in r.1 <==> k in entries) && (k in entries ==> r.1[k] == entries[k])
  {
    if PICASSO_CACHE in entries && entries[PICASSO_CACHE].Directory? then
      DeleteTreeIffAllDeletable(entries[PICASSO_CACHE]);
      match DeleteTree(entries[PICASSO_CACHE])
      case None => (true, entries - {PICASSO_CACHE})
      case Some(left) => (false, entries[PICASSO_CACHE := left])
    else
      (false, entries)
  }

  // ---------------------------------------------------------------------------
  // The manager's state and its transitions

  datatype Picasso = Picasso(
    flags: Flags,
    targetList: map<Url, Target>,
    calls: seq<PicassoCall>,
    cacheDir: map<string, FsNode>,
    screen: map<ViewId, Shown>)

  function Initial(flags: Flags, cacheDir: map<string, FsNode>, screen: map<ViewId, Shown>): Picasso
  {
    Picasso(flags, map[], [], cacheDir, screen)
  }

  /**
   * `loadImage` with `target` the new Target. `into(target)` calls the target
   * back before it returns: `onBitmapLoaded` when the request may read the
   * library's memory cache and that cache holds `cached`, `onPrepareLoad`
   * otherwise. Only after that is the target registered under the url.
   */
  function LoadImage(s: Picasso, im: ImageModel, target: Target, cached: Option<Bitmap>): Picasso
  {
    var request := RequestFor(im.url, s.flags);
    var called := s.(calls := s.calls + [Into(request, target)]);
    var answered :=
      if cached.Some? && ReadsMemoryCache(request) then OnBitmapLoaded(called, target, cached.value)
      else OnPrepareLoad(called, target);
    answered.(targetList := answered.targetList[im.url := target])
  }

  /** Whether `into` answers from the library's memory cache. */
  predicate MemoryHit(s: Picasso, im: ImageModel, cached: Option<Bitmap>)
  {
    cached.Some? && ReadsMemoryCache(RequestFor(im.url, s.flags))
  }

  function OnBitmapLoaded(s: Picasso, target: Target, bitmap: Bitmap): Picasso
  {
    s.(screen := s.screen[target.imageView := Shown(Picture(bitmap), target.url)],
       targetList := s.targetList - {target.url})
  }

  function OnBitmapFailed(s: Picasso, target: Target): Picasso
  {
    s.(screen := s.screen[target.imageView := Shown(NoCover, target.url)],
       targetList := s.targetList - {target.url})
  }

  function OnPrepareLoad(s: Picasso, target: Target): Picasso
  {
    s.(screen := s.screen[target.imageView := Shown(Placeholder, target.url)])
  }

  /** `clearCache`: the library's memory cache, then the "picasso-cache" directory. */
  function ClearCache(s: Picasso): Picasso
  {
    s.(calls := s.calls + [ClearMemoryCache], cacheDir := ClearDiskCache(s.cacheDir).1)
  }

  function OnViewDetachedFromWindow(s: Picasso, url: Url): Picasso
  {
    if url in s.targetList then
      s.(calls := s.calls + [CancelRequest(s.targetList[url])], targetList := s.targetList - {url})
    else s
  }

  function SetMemoryCache(s: Picasso, b: bool): Picasso { s.(flags := WithMemoryCache(s.flags, b)) }
  function SetDiskCache(s: Picasso, b: bool): Picasso { s.(flags := WithDiskCache(s.flags, b)) }

  // ---------------------------------------------------------------------------
  // What the bookkeeping promises

  /**
   * After `loadImage` the url maps to the new target, whatever it mapped to
   * before, and other urls keep theirs. The view shows the cached bitmap on a
   * memory hit (only possible with the memory flag on) and the placeholder otherwise.
   */
  lemma LoadImageRegisters(s: Picasso, im: ImageModel, target: Target, cached: Option<Bitmap>)
    requires target.url == im.url && target.imageView == im.imageView
    ensures var s' := LoadImage(s, im, target, cached);
            s'.targetList[im.url] == target
            && (forall u | u != im.url :: (u in s'.targetList <==> u in s.targetList))
            && (forall u | u != im.url && u in s.targetList :: s'.targetList[u] == s.targetList[u])
            && s'.calls == s.calls + [Into(RequestFor(im.url, s.flags), target)]
    ensures MemoryHit(s, im, cached) ==> s.flags.memoryCache
    ensures LoadImage(s, im, target, cached).screen ==
              s.screen[im.imageView := Shown(if MemoryHit(s, im, cached) then Picture(cached.value) else Placeholder, im.url)]
  {
    PoliciesFollowFlags(im.url, s.flags);
  }

  /**
   * A memory hit calls `onBitmapLoaded` inside `into`, before the put: its
   * removal finds nothing (or an older target) to drop, so the finished target
   * stays registered and a later detach cancels a request that has completed.
   */
  lemma MemoryHitStaysRegistered(s: Picasso, im: ImageModel, target: Target, b: Bitmap)
    requires target.url == im.url && target.imageView == im.imageView && s.flags.memoryCache
    ensures var s' := LoadImage(s, im, target, Some(b));
            s'.screen[im.imageView] == Shown(Picture(b), im.url)
            && s'.targetList[im.url] == target
            && OnViewDetachedFromWindow(s', im.url).calls == s'.calls + [CancelRequest(target)]
  {
    PoliciesFollowFlags(im.url, s.flags);
  }

  /** Success and failure both show something in the target's view and drop the url's entry. */
  lemma CallbacksUnregister(s: Picasso, target: Target, bitmap: Bitmap)
    ensures target.url !in OnBitmapLoaded(s, target, bitmap).targetList
    ensures target.url !in OnBitmapFailed(s, target).targetList
    ensures OnBitmapLoaded(s, target, bitmap).screen[target.imageView].content == Picture(bitmap)
    ensures OnBitmapFailed(s, target).screen[target.imageView].content == NoCover
    ensures OnBitmapLoaded(s, target, bitmap).calls == OnBitmapFailed(s, target).calls == s.calls
  {
  }

  /** Detaching a registered url cancels its target and drops it; an unregistered url changes nothing. */
  lemma DetachCancels(s: Picasso, url: Url)
    ensures url in s.targetList ==> OnViewDetachedFromWindow(s, url).calls == s.calls + [CancelRequest(s.targetList[url])]
    ensures url !in OnViewDetachedFromWindow(s, url).targetList
    ensures url !in s.targetList ==> OnViewDetachedFromWindow(s, url) == s
  {
  }

  /**
   * The callbacks remove by url, not by target: when a view is re-bound to the
   * same url, the older target finishing drops the newer one's entry, and a
   * later detach then has nothing to cancel.
   */
  lemma OlderTargetDropsNewer(s: Picasso, im: ImageModel, older: Target, newer: Target, bitmap: Bitmap)
    requires older.url == im.url
    ensures var s' := OnBitmapLoaded(LoadImage(LoadImage(s, im, older, None), im, newer, None), older, bitmap);
            im.url !in s'.targetList && OnViewDetachedFromWindow(s', im.url) == s'
  {
  }

  /** Loading and then detaching the same url cancels exactly the target just created. */
  lemma {:induction false} LoadThenDetach(s: Picasso, im: ImageModel, target: Target, cached: Option<Bitmap>)
    requires target.url == im.url
    ensures var s' := OnViewDetachedFromWindow(LoadImage(s, im, target, cached), im.url);
            s'.calls == s.calls + [Into(RequestFor(im.url, s.flags), target), CancelRequest(target)]
            && s'.targetList == s.targetList - {im.url}
  {
    var s1 := LoadImage(s, im, target, cached);
    assert s1.targetList[im.url] == target;
    assert s1.targetList - {im.url} == s.targetList - {im.url};
  }
}

/** `PicassoImageLoaderManager`: its fields change in place, as PicassoModel describes. */
module PicassoLoader {
  import opened Wrappers
  import opened Model
  import opened ImageLoader
  import opened PicassoModel

  /** `context.getCacheDir()`: the entries of the application's cache directory. */
  class AppCacheDir {
    var entries: map<string, FsNode>

    constructor (entries: map<string, FsNode>)
      ensures this.entries == entries
    {
      this.entries := entries;
    }
  }

  /**
   * `deleteDir`, walking the tree; the deletions it makes are returned as what
   * is left of `dir` (`None` when it is gone).
   */
  method DeleteDir(dir: FsNode) returns (success: bool, left: Option<FsNode>)
    ensures left == DeleteTree(dir)
    ensures success <==> left.None?
    decreases dir
  {
    if dir.Directory? {
      var children := dir.children;
      var i := 0;
      while i < |children|
        invariant 0 <= i <= |children|
        invariant forall j | 0 <= j < i :: DeleteTree(children[j]).None?
      {
        var ok, rest := DeleteDir(children[i]);
        if !ok {
          FirstFailureStops(dir, children, i);
          return false, Some(Directory(dir.name, [rest.value] + children[i + 1..], dir.deletable));
        }
        i := i + 1;
      }
      AllChildrenGo(dir, children);
    }
    // The directory is empty now (or `dir` is a file): delete it
    if dir.deletable {
      return true, None;
    }
    return false, Some(if dir.Directory? then Directory(dir.name, [], dir.deletable) else dir);
  }

  class PicassoImageLoaderManager {
    const base: ImageLoaderManager
    const views: Views
    const appCache: AppCacheDir

    var targetList: map<Url, Target>
    /** The calls made into the Picasso library so far. */
    var calls: seq<PicassoCall>

    function State(): Picasso
      reads this, base, views, appCache
    {
      Picasso(base.CurrentFlags(), targetList, calls, appCache.entries, views.shown)
    }

    constructor (useDiskCache: bool, useMemoryCache: bool, views: Views, appCache: AppCacheDir)
      ensures State() == Initial(Flags(useDiskCache, useMemoryCache), appCache.entries, views.shown)
      ensures fresh(base) && this.views == views && this.appCache == appCache
    {
      base := new ImageLoaderManager(useDiskCache, useMemoryCache);
      this.views := views;
      this.appCache := appCache;
      targetList := map[];
      calls := [];
    }

    /** `cached` is what the library's memory cache holds for the request. */
    method LoadImage(im: ImageModel, cached: Option<Bitmap>)
      modifies this, views
      ensures im.url in targetList && fresh(targetList[im.url])
      ensures targetList[im.url].url == im.url && targetList[im.url].imageView == im.imageView
      ensures State() == PicassoModel.LoadImage(old(State()), im, targetList[im.url], cached)
    {
      var target := new Target(im.url, im.imageView);
      var memoryPolicy: set<MemoryPolicy> := {};
      if !base.memoryCache {
        memoryPolicy := memoryPolicy + {MemoryNoCache} + {MemoryNoStore};
      }
      var networkPolicy: set<NetworkPolicy> := {};
      if !base.diskCache {
        networkPolicy := networkPolicy + {NetworkNoCache} + {NetworkNoStore};
      }
      var request := Request(im.url, memoryPolicy, networkPolicy);
      assert request == RequestFor(im.url, base.CurrentFlags());
      calls := calls + [Into(request, target)];
      // `into` answers synchronously, before the target is registered
      if cached.Some? && ReadsMemoryCache(request) {
        OnBitmapLoaded(target, cached.value);
      } else {
        OnPrepareLoad(target);
      }
      targetList := targetList[im.url := target];
    }

    /** `Target.onBitmapLoaded`, called by the library. */
    method OnBitmapLoaded(target: Target, bitmap: Bitmap)
      modifies this, views
      ensures State() == PicassoModel.OnBitmapLoaded(old(State()), target, bitmap)
    {
      views.Set(target.imageView, Picture(bitmap), target.url);
      targetList := targetList - {target.url};
    }

    /** `Target.onBitmapFailed`: the error drawable is the "no cover" image. */
    method OnBitmapFailed(target: Target)
      modifies this, views
      ensures State() == PicassoModel.OnBitmapFailed(old(State()), target)
    {
      views.Set(target.imageView, NoCover, target.url);
      targetList := targetList - {target.url};
    }

    method OnPrepareLoad(target: Target)
      modifies views
      ensures State() == PicassoModel.OnPrepareLoad(old(State()), target)
    {
      views.Set(target.imageView, Placeholder, target.url);
    }

    method ClearCache()
      modifies this, appCache
      ensures State() == PicassoModel.ClearCache(old(State()))
    {
      ClearMemoryCache();
      var _ := ClearDiskCache();
    }

    /** Goes through `PicassoTools.clearCache`, which empties the library's memory cache. */
    method ClearMemoryCache()
      modifies this
      ensures State() == old(State()).(calls := old(calls) + [PicassoCall.ClearMemoryCache])
    {
      calls := calls + [PicassoCall.ClearMemoryCache];
    }

    method ClearDiskCache() returns (ok: bool)
      modifies appCache
      ensures (ok, appCache.entries) == PicassoModel.ClearDiskCache(old(appCache.entries))
    {
      if PICASSO_CACHE in appCache.entries && appCache.entries[PICASSO_CACHE].Directory? {
        var left;
        ok, left := DeleteDir(appCache.entries[PICASSO_CACHE]);
        if left.None? {
          appCache.entries := appCache.entries - {PICASSO_CACHE};
        } else {
          appCache.entries := appCache.entries[PICASSO_CACHE := left.value];
        }
        return;
      }
      return false;
    }

    method OnViewDetachedFromWindow(url: Url)
      modifies this
      ensures State() == PicassoModel.OnViewDetachedFromWindow(old(State()), url)
    {
      if url in targetList {
        var target := targetList[url];
        calls := calls + [CancelRequest(target)];
        targetList := targetList - {url};
      }
    }
  }
}
