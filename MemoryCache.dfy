/**
 * The manual loader's in-memory bitmap cache, as a finite map from url to the
 * bitmap last stored for it (possibly `null`); its eviction policy is not modelled.
 */
module MemoryCaching {
  import opened Wrappers
  import opened Model

  /** `getImageFromCache` on the map: `null` for a url never stored. */
  function Lookup(cache: map<Url, Option<Bitmap>>, url: Url): (b: Option<Bitmap>)
    ensures b.Some? ==> url in cache && cache[url] == b
  {
    if url in cache then cache[url] else None
  }

  /** Reading back a url just stored gives what was stored; other urls are untouched. */
  lemma LookupAfterAdd(cache: map<Url, Option<Bitmap>>, url: Url, b: Option<Bitmap>, other: Url)
    ensures Lookup(cache[url := b], url) == b
    ensures other != url ==> Lookup(cache[url := b], other) == Lookup(cache, other)
  {
  }

  class MemoryCache {
    var cache: map<Url, Option<Bitmap>>

    constructor ()
      ensures cache == map[]
    {
      cache := map[];
    }

    method GetImageFromCache(url: Url) returns (b: Option<Bitmap>)
      ensures b == Lookup(cache, url)
      ensures b.Some? ==> url in cache
    {
      if url in cache {
        b := cache[url];
      } else {
        b := None;
      }
    }

    method AddImageToCache(url: Url, b: Option<Bitmap>)
      modifies this
      ensures cache == old(cache)[url := b]
    {
      cache := cache[url := b];
    }

    method Clear()
      modifies this
      ensures cache == map[]
    {
      cache := map[];
    }
  }
}
