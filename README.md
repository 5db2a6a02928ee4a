# LazyLoadDemoApp image loaders in Dafny

LazyLoadDemoApp shows a scrolling grid of remote images. It can fetch them with any of five engines.

The hand-written ("manual") engine does the following:
- it keeps a memory cache and a directory of cached files;
- it runs `PhotosLoader` tasks on a thread pool;
- it posts display runnables to the UI thread;
- it guards every step with a staleness check. The check asks whether the view has been given to another url since the request was made.

The Picasso and Fresco managers keep a url-keyed registry of pending requests. The Picasso manager also empties Picasso's disk cache by walking it recursively. `MainPresenterImpl` owns the current manager and the two cache flags.

The model follows the code file by file:

- **Java semantics**:
  - `JavaLang`: `int` wrap-around, `String.hashCode` over UTF-16 code units (the Java SE API specification of `java.lang.String.hashCode`), `String.valueOf(int)`, and truncating division.
  - `JavaIo`: paths, bytes, and a `FileSystem` class whose directories and files change in place.
- **The manual engine**:
  - `ImageLoader`: the base class and its flags.
  - `MemoryCaching`: the memory cache as a finite map.
  - `FileCaching`: `FileCache`.
  - `Sampling`: the sample-size loop of `decodeFile`, on Java `int`s.
  - `LoaderSpec`: the whole engine as a state machine over a value `Manual`. The thread pool and the UI handler become queues of pending work, and each step runs one piece of it atomically.
  - `ManualLoader` and `PhotosLoading`: the `ManualImageLoaderManager` class and the `PhotosLoader` methods. Every method is proved to change the objects exactly as the matching `LoaderSpec` function changes `State()`.
- **The Picasso engine**: `PicassoModel` (values, the request policies, the file tree and `deleteDir`) and `PicassoLoader` (the manager class).
- **The Fresco engine**: `FrescoModel` and `FrescoLoader`, with the same split.
- **The two other libraries**: `LibraryModel` and `LibraryLoaders` hold what the Glide and UIL managers hand to their libraries.
- **The presenter**: `Presenter`, the `MainPresenterImpl` class. Each manager is held as a case of `ActiveManager`, and the base class is reached through the field `base`.

The main results:
- **The latest request for a view wins.** Tasks, paused workers and posted runnables of earlier requests can interleave in any order, and each task's fetch has its own outcome. As long as the view is not re-bound, it shows the placeholder or the result of a request for the url it was last asked for (`LoaderSpec.LatestRequestWins`, with the invariant `Consistent` kept by every step). The result is what that request produced, not necessarily bytes downloaded from that url: urls with equal hash codes share a cache file. The guarantee holds within one manager. After `setDownloadEngine` the old manager's queued work still runs and can paint views the new manager has re-bound.
- **The sample size.** It is the largest power of two for which both halved dimensions stay at least 85. The loop's variables are the truncating quotients of the bounds by the scale (`Sampling.ComputeScale`, `Sampling.SampleSizeExit`, `Sampling.SampleSizeMaximal`).
- **Cache file names.** The name is the decimal form of the wrapped polynomial hash. Two urls share a file exactly when their hash codes agree, and distinct urls ("Aa", "BB") can do so (`FileCaching.SameFileIffSameHash`, `FileCaching.DistinctUrlsCollide`).
- **`deleteDir`** returns true exactly when every entry of the tree is deletable. It stops at the first child that fails, and leaves that child and all later children untouched (`PicassoModel.DeleteTreeIffAllDeletable`, `PicassoModel.FirstFailureStops`).

The code does not merge concurrent requests for one url: every miss queues its own task (`LoaderSpec.NoCoalescing`). A queued task reads the manager's current flags when it runs, both for its memory write and for its cache-file lookup. So a task queued with the disk cache on and run after the flag was turned off dies on `decodeFile(null)` (`LoaderSpec.DiskFlagTurnedOffKillsTask`).

## Model

| member | source | states |
|---|---|---|
| JavaLang.ToInt32 | app/src/main/java/com/motondon/lazyloaddemoapp/imageloader/manual/cache/FileCache.java:35 | narrowing to a Java `int` keeps the value modulo 2^32 |
| JavaLang.ToInt32Congruent | app/src/main/java/com/motondon/lazyloaddemoapp/imageloader/manual/cache/FileCache.java:35 | integers congruent modulo 2^32 narrow to the same `int` |
| JavaLang.PolynomialHashAppend | app/src/main/java/com/motondon/lazyloaddemoapp/imageloader/manual/cache/FileCache.java:35 | appending a code unit to a string is one step `31 * h + c` of the exact hash polynomial |
| JavaLang.HashLoopIsHashCode | app/src/main/java/com/motondon/lazyloaddemoapp/imageloader/manual/cache/FileCache.java:35 | the JDK's loop, wrapping at every step, gives the wrapped polynomial of the Java SE definition of `hashCode` |
| JavaLang.HashCollision | app/src/main/java/com/motondon/lazyloaddemoapp/imageloader/manual/cache/FileCache.java:35 | "Aa" and "BB" differ but both hash to 2112 |
| JavaLang.NatDigits | app/src/main/java/com/motondon/lazyloaddemoapp/imageloader/manual/cache/FileCache.java:35 | the decimal form is non-empty, all digits, and has no leading zero |
| JavaLang.ParseIntToString | app/src/main/java/com/motondon/lazyloaddemoapp/imageloader/manual/cache/FileCache.java:35 | parsing `String.valueOf(n)` gives back `n`, negatives included |
| JavaLang.IntToStringInjective | app/src/main/java/com/motondon/lazyloaddemoapp/imageloader/manual/cache/FileCache.java:35 | two `int`s have the same decimal form if and only if they are equal |
| JavaIo.ConcatAppend | app/src/main/java/com/motondon/lazyloaddemoapp/imageloader/manual/task/PhotosLoader.java:137-146 | the bytes gathered from chunks split anywhere are the two parts' bytes joined |
| JavaIo.ConcatLength | app/src/main/java/com/motondon/lazyloaddemoapp/imageloader/manual/task/PhotosLoader.java:137-146 | the gathered bytes are as long as all chunks together |
| JavaIo.MakeDirs | app/src/main/java/com/motondon/lazyloaddemoapp/imageloader/manual/cache/FileCache.java:29 | on success the directory exists and no file changed; on failure nothing changed |
| JavaIo.WriteFile | app/src/main/java/com/motondon/lazyloaddemoapp/imageloader/manual/task/PhotosLoader.java:100-105 | opening for output succeeds exactly when the parent directory exists and the path is not a directory; then the file holds exactly the data and nothing else changes |
| JavaIo.MakeDirsWellFormed | app/src/main/java/com/motondon/lazyloaddemoapp/imageloader/manual/cache/FileCache.java:29 | creating directories keeps the disk well formed: the root stays a directory, no path is both file and directory, every file lies in a directory |
| JavaIo.WriteFileWellFormed | app/src/main/java/com/motondon/lazyloaddemoapp/imageloader/manual/task/PhotosLoader.java:100-105 | writing a file keeps the disk well formed |
| JavaIo.DeleteFileWellFormed | app/src/main/java/com/motondon/lazyloaddemoapp/imageloader/manual/cache/FileCache.java:49 | deleting a file keeps the disk well formed |
| JavaIo.DeleteFile | app/src/main/java/com/motondon/lazyloaddemoapp/imageloader/manual/cache/FileCache.java:49 | `delete()` succeeds exactly on an existing unlocked file and removes only it |
| JavaIo.ClearDir | app/src/main/java/com/motondon/lazyloaddemoapp/imageloader/manual/cache/FileCache.java:44-50 | after clearing, a file remains exactly when it was outside the directory or could not be deleted, with its content unchanged |
| JavaIo.DeleteEachRemoves | app/src/main/java/com/motondon/lazyloaddemoapp/imageloader/manual/cache/FileCache.java:48-49 | deleting a list one by one removes exactly its unlocked files; a failure does not stop the rest |
| JavaIo.DeleteListingClears | app/src/main/java/com/motondon/lazyloaddemoapp/imageloader/manual/cache/FileCache.java:44-50 | deleting a complete listing of a directory, in any order, clears it |
| JavaIo.FileSystem.IsPresent | app/src/main/java/com/motondon/lazyloaddemoapp/imageloader/manual/cache/FileCache.java:25 | `exists()` is true exactly for an existing file or directory |
| JavaIo.FileSystem.Mkdirs | app/src/main/java/com/motondon/lazyloaddemoapp/imageloader/manual/cache/FileCache.java:29 | the file system changes exactly as `MakeDirs` describes |
| JavaIo.FileSystem.Write | app/src/main/java/com/motondon/lazyloaddemoapp/imageloader/manual/task/PhotosLoader.java:100-105 | writing succeeds and changes the file system exactly as `WriteFile` says, or fails and changes nothing |
| JavaIo.FileSystem.Read | app/src/main/java/com/motondon/lazyloaddemoapp/imageloader/manual/task/PhotosLoader.java:161-162 | reading gives the file's content, or `null` for a missing file |
| JavaIo.FileSystem.ListFiles | app/src/main/java/com/motondon/lazyloaddemoapp/imageloader/manual/cache/FileCache.java:45-47 | `listFiles()` is `null` exactly for a missing directory, otherwise it lists every file directly inside it, each once |
| JavaIo.FileSystem.Delete | app/src/main/java/com/motondon/lazyloaddemoapp/imageloader/manual/cache/FileCache.java:49 | `delete()` changes the file system as `DeleteFile` says |
| Model.Views.Set | app/src/main/java/com/motondon/lazyloaddemoapp/imageloader/manual/manager/ManualImageLoaderManager.java:145-148 | setting a view's image changes that view only |
| ImageLoader.WithMemoryCache | app/src/main/java/com/motondon/lazyloaddemoapp/imageloader/ImageLoaderManager.java:35-38 | the memory flag takes the new value and the disk flag is untouched |
| ImageLoader.WithDiskCache | app/src/main/java/com/motondon/lazyloaddemoapp/imageloader/ImageLoaderManager.java:40-43 | the disk flag takes the new value and the memory flag is untouched |
| ImageLoader.SettersIdempotent | app/src/main/java/com/motondon/lazyloaddemoapp/imageloader/ImageLoaderManager.java:35-43 | setting a flag twice to one value is setting it once |
| ImageLoader.SettersCommute | app/src/main/java/com/motondon/lazyloaddemoapp/imageloader/ImageLoaderManager.java:35-43 | the two setters commute and together determine both flags |
| ImageLoader.ImageLoaderManager.constructor | app/src/main/java/com/motondon/lazyloaddemoapp/imageloader/ImageLoaderManager.java:28-33 | the constructor stores the given disk and memory flags |
| ImageLoader.ImageLoaderManager.SetMemoryCache | app/src/main/java/com/motondon/lazyloaddemoapp/imageloader/ImageLoaderManager.java:35-38 | only the memory flag changes, to the given value |
| ImageLoader.ImageLoaderManager.SetDiskCache | app/src/main/java/com/motondon/lazyloaddemoapp/imageloader/ImageLoaderManager.java:40-43 | only the disk flag changes, to the given value |
| MemoryCaching.Lookup | app/src/main/java/com/motondon/lazyloaddemoapp/imageloader/manual/manager/ManualImageLoaderManager.java:82 | a hit is a url that was stored, with what was stored for it |
| MemoryCaching.LookupAfterAdd | app/src/main/java/com/motondon/lazyloaddemoapp/imageloader/manual/manager/ManualImageLoaderManager.java:153-157 | a url just stored reads back as stored; other urls are untouched |
| MemoryCaching.MemoryCache.GetImageFromCache | app/src/main/java/com/motondon/lazyloaddemoapp/imageloader/manual/manager/ManualImageLoaderManager.java:82 | the lookup returns what the map holds for the url, or `null` |
| MemoryCaching.MemoryCache.AddImageToCache | app/src/main/java/com/motondon/lazyloaddemoapp/imageloader/manual/manager/ManualImageLoaderManager.java:155 | the url now maps to the given bitmap, `null` included |
| MemoryCaching.MemoryCache.Clear | app/src/main/java/com/motondon/lazyloaddemoapp/imageloader/manual/manager/ManualImageLoaderManager.java:169 | the cache is empty afterwards |
| FileCaching.CacheRoot | app/src/main/java/com/motondon/lazyloaddemoapp/imageloader/manual/cache/FileCache.java:18-23 | the root is "LazyList" on mounted external storage, the app's cache directory otherwise |
| FileCaching.CacheFile | app/src/main/java/com/motondon/lazyloaddemoapp/imageloader/manual/cache/FileCache.java:33-39 | the file lies directly in the cache directory and is named by the decimal hash code |
| FileCaching.SameFileIffSameHash | app/src/main/java/com/motondon/lazyloaddemoapp/imageloader/manual/cache/FileCache.java:35 | two urls get the same file if and only if their hash codes are equal |
| FileCaching.DistinctUrlsCollide | app/src/main/java/com/motondon/lazyloaddemoapp/imageloader/manual/cache/FileCache.java:35 | "Aa" and "BB" share the file "2112" |
| FileCaching.OpenCacheDir | app/src/main/java/com/motondon/lazyloaddemoapp/imageloader/manual/cache/FileCache.java:25-30 | an existing root is left alone; a missing one is created when the platform allows it; files never change |
| FileCaching.ClearCacheDir | app/src/main/java/com/motondon/lazyloaddemoapp/imageloader/manual/cache/FileCache.java:44-50 | a missing directory (null listing) leaves the disk unchanged; otherwise the directory is cleared |
| FileCaching.FileCache.constructor | app/src/main/java/com/motondon/lazyloaddemoapp/imageloader/manual/cache/FileCache.java:15-31 | the manager's directory is the chosen root, and the file system is as `OpenCacheDir` says |
| FileCaching.FileCache.GetFile | app/src/main/java/com/motondon/lazyloaddemoapp/imageloader/manual/cache/FileCache.java:33-39 | reads and writes nothing; the path is a child of the cache directory named by the hash |
| FileCaching.FileCache.Clear | app/src/main/java/com/motondon/lazyloaddemoapp/imageloader/manual/cache/FileCache.java:44-50 | the file system ends as `ClearCacheDir` says: every deletable listed file gone, failures skipped |
| Sampling.Pow2IsPowerOfTwo | app/src/main/java/com/motondon/lazyloaddemoapp/imageloader/manual/task/PhotosLoader.java:169-175 | doubling from 1 only produces powers of two |
| Sampling.HalveIsQuot | app/src/main/java/com/motondon/lazyloaddemoapp/imageloader/manual/task/PhotosLoader.java:173-175 | halving `k` times with Java `/` is a single truncating division by `2^k` |
| Sampling.RoundsExit | app/src/main/java/com/motondon/lazyloaddemoapp/imageloader/manual/task/PhotosLoader.java:170-176 | after the counted rounds the loop's exit test holds; any round taken kept both dimensions at least 85 |
| Sampling.SampleSizeExit | app/src/main/java/com/motondon/lazyloaddemoapp/imageloader/manual/task/PhotosLoader.java:166-176 | the scale is a power of two; at exit a halved dimension is below 85; a scale above 1 leaves both dimensions at least 85; a dimension below 170 gives scale 1 |
| Sampling.SampleSizeMaximal | app/src/main/java/com/motondon/lazyloaddemoapp/imageloader/manual/task/PhotosLoader.java:166-176 | no larger power of two keeps both dimensions at least 85, so the scale is the largest admissible one |
| Sampling.ScaleBound | app/src/main/java/com/motondon/lazyloaddemoapp/imageloader/manual/task/PhotosLoader.java:173-175 | the scale times the halved dimension never exceeds the dimension |
| Sampling.ComputeScale | app/src/main/java/com/motondon/lazyloaddemoapp/imageloader/manual/task/PhotosLoader.java:166-176 | the loop on `int`s ends with the sample size, `width_tmp == outWidth / scale` and `height_tmp == outHeight / scale`, and the exit promises above |
| LoaderSpec.Initial | app/src/main/java/com/motondon/lazyloaddemoapp/imageloader/manual/manager/ManualImageLoaderManager.java:50-58 | a new manager has recorded, cached, queued and posted nothing |
| LoaderSpec.DecodeFile | app/src/main/java/com/motondon/lazyloaddemoapp/imageloader/manual/task/PhotosLoader.java:154-191 | a `null` file throws NullPointerException; a missing file gives `null`; an IOException never escapes |
| LoaderSpec.Failed | app/src/main/java/com/motondon/lazyloaddemoapp/imageloader/manual/task/PhotosLoader.java:121-126 | a caught throwable yields `null` |
| LoaderSpec.Download | app/src/main/java/com/motondon/lazyloaddemoapp/imageloader/manual/task/PhotosLoader.java:88-126 | the download block always returns normally; only the disk and the memory cache change, and the disk only for a disk-caching task |
| LoaderSpec.GetBitmap | app/src/main/java/com/motondon/lazyloaddemoapp/imageloader/manual/task/PhotosLoader.java:77-127 | only the disk and memory cache change; the memory cache is untouched or emptied (flag on); an escaping exception changes nothing and comes only from the disk path |
| LoaderSpec.LoadImageRecords | app/src/main/java/com/motondon/lazyloaddemoapp/imageloader/manual/manager/ManualImageLoaderManager.java:77 | the view's url is recorded, replacing an earlier one, and no cache changes |
| LoaderSpec.LoadImageOutcome | app/src/main/java/com/motondon/lazyloaddemoapp/imageloader/manual/manager/ManualImageLoaderManager.java:79-102 | a memory hit (flag on) shows the cached bitmap and queues nothing; otherwise exactly one task with the current flags is queued and the placeholder shown |
| LoaderSpec.NoCoalescing | app/src/main/java/com/motondon/lazyloaddemoapp/imageloader/manual/manager/ManualImageLoaderManager.java:110-112 | two misses for one url queue two tasks |
| LoaderSpec.ClearCacheTiers | app/src/main/java/com/motondon/lazyloaddemoapp/imageloader/manual/manager/ManualImageLoaderManager.java:173-184 | each tier is cleared exactly when its flag is on, and nothing else changes |
| LoaderSpec.StaleTaskDoesNothing | app/src/main/java/com/motondon/lazyloaddemoapp/imageloader/manual/task/PhotosLoader.java:47-48 | a task whose view was reused before it started changes nothing at all |
| LoaderSpec.RunCachesResult | app/src/main/java/com/motondon/lazyloaddemoapp/imageloader/manual/task/PhotosLoader.java:59-62 | the fetched result, even `null`, is cached exactly when the task's and the manager's memory flags are on, and the task holds it for its second check |
| LoaderSpec.ResumePosts | app/src/main/java/com/motondon/lazyloaddemoapp/imageloader/manual/task/PhotosLoader.java:66-70 | after the fetch a display is posted only for a view not reused, and with exactly the fetched bitmap |
| LoaderSpec.DisplayOutcome | app/src/main/java/com/motondon/lazyloaddemoapp/imageloader/manual/manager/ManualImageLoaderManager.java:137-150 | the runnable does nothing for a reused view, else shows the bitmap, or the placeholder for `null` |
| LoaderSpec.DiskHitSkipsNetwork | app/src/main/java/com/motondon/lazyloaddemoapp/imageloader/manual/task/PhotosLoader.java:80-85 | a decodable cached file is returned whatever the network would do, and nothing changes |
| LoaderSpec.NoDiskDecodesBytes | app/src/main/java/com/motondon/lazyloaddemoapp/imageloader/manual/task/PhotosLoader.java:110-117 | without the disk cache the downloaded bytes are decoded at sample size 1 and the disk is untouched |
| LoaderSpec.DownloadFailure | app/src/main/java/com/motondon/lazyloaddemoapp/imageloader/manual/task/PhotosLoader.java:121-126 | a failed download gives `null`, and only an OutOfMemoryError also clears the memory cache |
| LoaderSpec.DiskFlagTurnedOffKillsTask | app/src/main/java/com/motondon/lazyloaddemoapp/imageloader/manual/task/PhotosLoader.java:72-85 | a disk-caching task run after the disk flag went off throws on the `null` file, which `run` swallows: nothing changes |
| LoaderSpec.FetchedImageIsServedFromMemory | app/src/main/java/com/motondon/lazyloaddemoapp/imageloader/manual/manager/ManualImageLoaderManager.java:79-87 | once a task cached a bitmap, loading its url into any view shows it at once without queueing |
| LoaderSpec.StepConsistent | app/src/main/java/com/motondon/lazyloaddemoapp/imageloader/manual/manager/ManualImageLoaderManager.java:120-150 | every step keeps each recorded view showing the placeholder or result of a request for its recorded url |
| LoaderSpec.ReplayConsistent | app/src/main/java/com/motondon/lazyloaddemoapp/imageloader/manual/task/PhotosLoader.java:43-75 | any interleaving of steps, each started task with its own network outcome, keeps that invariant |
| LoaderSpec.InitialConsistent | app/src/main/java/com/motondon/lazyloaddemoapp/imageloader/manual/manager/ManualImageLoaderManager.java:50-58 | a new manager satisfies the invariant |
| LoaderSpec.StepKeepsViews | app/src/main/java/com/motondon/lazyloaddemoapp/imageloader/manual/manager/ManualImageLoaderManager.java:77 | only `loadImage` changes which url a view belongs to |
| LoaderSpec.LatestRequestWins | app/src/main/java/com/motondon/lazyloaddemoapp/imageloader/manual/task/PhotosLoader.java:47-70 | however one manager's earlier work interleaves, an un-rebound view keeps its url and shows the placeholder or result of a request for that url, never what a request for an earlier url delivered |
| ManualLoader.ManualImageLoaderManager.constructor | app/src/main/java/com/motondon/lazyloaddemoapp/imageloader/manual/manager/ManualImageLoaderManager.java:50-58 | the manager starts in `Initial` with the given flags and the opened cache directory |
| ManualLoader.ManualImageLoaderManager.LoadImage | app/src/main/java/com/motondon/lazyloaddemoapp/imageloader/manual/manager/ManualImageLoaderManager.java:66-103 | the objects change exactly as `LoaderSpec.LoadImage` says |
| ManualLoader.ManualImageLoaderManager.QueuePhoto | app/src/main/java/com/motondon/lazyloaddemoapp/imageloader/manual/manager/ManualImageLoaderManager.java:110-112 | one task carrying the current flags is added to the executor's queue |
| ManualLoader.ManualImageLoaderManager.ImageViewReused | app/src/main/java/com/motondon/lazyloaddemoapp/imageloader/manual/manager/ManualImageLoaderManager.java:120-129 | true if and only if the view's recorded url is absent or differs from the request's |
| ManualLoader.ManualImageLoaderManager.DisplayImage | app/src/main/java/com/motondon/lazyloaddemoapp/imageloader/manual/manager/ManualImageLoaderManager.java:137-151 | only a runnable is posted; no view changes yet |
| ManualLoader.ManualImageLoaderManager.AddMemoryCache | app/src/main/java/com/motondon/lazyloaddemoapp/imageloader/manual/manager/ManualImageLoaderManager.java:153-157 | stores the bitmap when the memory flag is on; with the flag off the cache is unchanged |
| ManualLoader.ManualImageLoaderManager.GetFileCache | app/src/main/java/com/motondon/lazyloaddemoapp/imageloader/manual/manager/ManualImageLoaderManager.java:159-165 | a file comes back exactly when the disk flag is on, and it is the `FileCache` file of the url |
| ManualLoader.ManualImageLoaderManager.ClearMemoryCache | app/src/main/java/com/motondon/lazyloaddemoapp/imageloader/manual/manager/ManualImageLoaderManager.java:167-171 | empties the cache when the memory flag is on, and otherwise leaves it unchanged |
| ManualLoader.ManualImageLoaderManager.ClearCache | app/src/main/java/com/motondon/lazyloaddemoapp/imageloader/manual/manager/ManualImageLoaderManager.java:173-184 | the objects change exactly as `LoaderSpec.ClearCache` says |
| ManualLoader.ManualImageLoaderManager.OnViewDetachedFromWindow | app/src/main/java/com/motondon/lazyloaddemoapp/imageloader/manual/manager/ManualImageLoaderManager.java:186-189 | nothing changes |
| ManualLoader.ManualImageLoaderManager.TakeTask | app/src/main/java/com/motondon/lazyloaddemoapp/imageloader/manual/manager/ManualImageLoaderManager.java:111 | a pool thread takes any one queued task, and the task leaves the queue |
| ManualLoader.ManualImageLoaderManager.Suspend | app/src/main/java/com/motondon/lazyloaddemoapp/imageloader/manual/task/PhotosLoader.java:64-66 | a task after its fetch waits for its second check |
| ManualLoader.ManualImageLoaderManager.TakeWorker | app/src/main/java/com/motondon/lazyloaddemoapp/imageloader/manual/task/PhotosLoader.java:66 | a paused task goes on, and it leaves the pause |
| ManualLoader.ManualImageLoaderManager.HandleMessage | app/src/main/java/com/motondon/lazyloaddemoapp/imageloader/manual/manager/ManualImageLoaderManager.java:138-150 | running a posted runnable changes the state as `LoaderSpec.HandleMessage` says |
| PhotosLoading.ReadFully | app/src/main/java/com/motondon/lazyloaddemoapp/imageloader/manual/task/PhotosLoader.java:137-146 | the output is every chunk appended in order, as long as all of them |
| PhotosLoading.DecodeFile | app/src/main/java/com/motondon/lazyloaddemoapp/imageloader/manual/task/PhotosLoader.java:154-191 | the bounds pass, the scale loop and the decode give `LoaderSpec.DecodeFile` |
| PhotosLoading.Failed | app/src/main/java/com/motondon/lazyloaddemoapp/imageloader/manual/task/PhotosLoader.java:121-126 | `null`, with the memory cache cleared for an OutOfMemoryError, as `LoaderSpec.Failed` says |
| PhotosLoading.Download | app/src/main/java/com/motondon/lazyloaddemoapp/imageloader/manual/task/PhotosLoader.java:88-126 | the download block changes state and returns as `LoaderSpec.Download` says |
| PhotosLoading.GetBitmap | app/src/main/java/com/motondon/lazyloaddemoapp/imageloader/manual/task/PhotosLoader.java:77-127 | `getBitmap` changes state and returns as `LoaderSpec.GetBitmap` says |
| PhotosLoading.Run | app/src/main/java/com/motondon/lazyloaddemoapp/imageloader/manual/task/PhotosLoader.java:43-66 | `run` up to its second check changes state as `LoaderSpec.Run` says |
| PhotosLoading.Resume | app/src/main/java/com/motondon/lazyloaddemoapp/imageloader/manual/task/PhotosLoader.java:66-70 | the second check and the post, as `LoaderSpec.Resume` says |
| PhotosLoading.ExecuteTask | app/src/main/java/com/motondon/lazyloaddemoapp/imageloader/manual/manager/ManualImageLoaderManager.java:110-112 | a pool thread running a queued task is the step `LoaderSpec.StartTask` |
| PhotosLoading.ContinueTask | app/src/main/java/com/motondon/lazyloaddemoapp/imageloader/manual/task/PhotosLoader.java:66-70 | a paused task finishing is the step `LoaderSpec.FinishTask` |
| PicassoModel.RequestFor | app/src/main/java/com/motondon/lazyloaddemoapp/imageloader/picasso/PicassoImageLoaderManager.java:107 | the request is for the given url |
| PicassoModel.PoliciesFollowFlags | app/src/main/java/com/motondon/lazyloaddemoapp/imageloader/picasso/PicassoImageLoaderManager.java:112-129 | each cache tier is read and written exactly when its flag is on |
| PicassoModel.Target.constructor | app/src/main/java/com/motondon/lazyloaddemoapp/imageloader/picasso/PicassoImageLoaderManager.java:74-104 | a target remembers its url and view |
| PicassoModel.DeleteTree | app/src/main/java/com/motondon/lazyloaddemoapp/imageloader/picasso/PicassoImageLoaderManager.java:192-206 | what is left after a failed `deleteDir` is the same node, same name and kind |
| PicassoModel.FirstFailureStops | app/src/main/java/com/motondon/lazyloaddemoapp/imageloader/picasso/PicassoImageLoaderManager.java:195-202 | the first child that fails stops the walk: it and all later children stay, untouched |
| PicassoModel.AllChildrenGo | app/src/main/java/com/motondon/lazyloaddemoapp/imageloader/picasso/PicassoImageLoaderManager.java:197-202 | when every child goes, no child is left |
| PicassoModel.ChildrenGoneThenSelf | app/src/main/java/com/motondon/lazyloaddemoapp/imageloader/picasso/PicassoImageLoaderManager.java:205 | with all children deleted the result is that of deleting the directory itself |
| PicassoModel.ChildrenLeft | app/src/main/java/com/motondon/lazyloaddemoapp/imageloader/picasso/PicassoImageLoaderManager.java:195-202 | some child is left if and only if some child fails |
| PicassoModel.DeleteTreeIffAllDeletable | app/src/main/java/com/motondon/lazyloaddemoapp/imageloader/picasso/PicassoImageLoaderManager.java:192-206 | `deleteDir` returns true if and only if everything in the tree is deletable |
| PicassoModel.ClearDiskCache | app/src/main/java/com/motondon/lazyloaddemoapp/imageloader/picasso/PicassoImageLoaderManager.java:181-190 | false with nothing deleted unless "picasso-cache" is an existing directory; then the result is whether the whole tree went; other entries never change |
| PicassoModel.LoadImageRegisters | app/src/main/java/com/motondon/lazyloaddemoapp/imageloader/picasso/PicassoImageLoaderManager.java:149-163 | after `loadImage` the url maps to the new target, replacing any earlier one, other urls keep theirs, and the view shows the memory-cached bitmap (memory flag on) or the placeholder |
| PicassoModel.MemoryHitStaysRegistered | app/src/main/java/com/motondon/lazyloaddemoapp/imageloader/picasso/PicassoImageLoaderManager.java:77-85 | a memory hit answers inside `into`, before the put at lines 161-163, so the finished target stays registered and a later detach cancels it |
| PicassoModel.CallbacksUnregister | app/src/main/java/com/motondon/lazyloaddemoapp/imageloader/picasso/PicassoImageLoaderManager.java:77-97 | success shows the bitmap, failure the error image, and both drop the url's entry |
| PicassoModel.DetachCancels | app/src/main/java/com/motondon/lazyloaddemoapp/imageloader/picasso/PicassoImageLoaderManager.java:218-226 | a registered url's target is cancelled and dropped; an unregistered url changes nothing |
| PicassoModel.OlderTargetDropsNewer | app/src/main/java/com/motondon/lazyloaddemoapp/imageloader/picasso/PicassoImageLoaderManager.java:82-84 | removal is by url: an older target finishing drops a newer target's entry, which can then no longer be cancelled |
| PicassoModel.LoadThenDetach | app/src/main/java/com/motondon/lazyloaddemoapp/imageloader/picasso/PicassoImageLoaderManager.java:149-163 | loading then detaching a url cancels exactly the target just created |
| PicassoLoader.AppCacheDir.constructor | app/src/main/java/com/motondon/lazyloaddemoapp/imageloader/picasso/PicassoImageLoaderManager.java:185 | the cache directory holds the given entries |
| PicassoLoader.DeleteDir | app/src/main/java/com/motondon/lazyloaddemoapp/imageloader/picasso/PicassoImageLoaderManager.java:192-206 | the recursive walk with its loop returns true exactly when the node is gone, and leaves what `DeleteTree` says |
| PicassoLoader.PicassoImageLoaderManager.constructor | app/src/main/java/com/motondon/lazyloaddemoapp/imageloader/picasso/PicassoImageLoaderManager.java:34-59 | the manager starts with the given flags, no targets and no calls |
| PicassoLoader.PicassoImageLoaderManager.LoadImage | app/src/main/java/com/motondon/lazyloaddemoapp/imageloader/picasso/PicassoImageLoaderManager.java:67-164 | a fresh target for the url and view is handed to the library with the flag-selected policies, answered at once by `onBitmapLoaded` (memory hit) or `onPrepareLoad`, and only then registered under the url |
| PicassoLoader.PicassoImageLoaderManager.OnBitmapLoaded | app/src/main/java/com/motondon/lazyloaddemoapp/imageloader/picasso/PicassoImageLoaderManager.java:77-85 | the state changes as `PicassoModel.OnBitmapLoaded` says |
| PicassoLoader.PicassoImageLoaderManager.OnBitmapFailed | app/src/main/java/com/motondon/lazyloaddemoapp/imageloader/picasso/PicassoImageLoaderManager.java:88-97 | the state changes as `PicassoModel.OnBitmapFailed` says |
| PicassoLoader.PicassoImageLoaderManager.OnPrepareLoad | app/src/main/java/com/motondon/lazyloaddemoapp/imageloader/picasso/PicassoImageLoaderManager.java:100-103 | the placeholder is shown in the target's view |
| PicassoLoader.PicassoImageLoaderManager.ClearCache | app/src/main/java/com/motondon/lazyloaddemoapp/imageloader/picasso/PicassoImageLoaderManager.java:167-172 | the state changes as `PicassoModel.ClearCache` says: memory first, then the disk directory |
| PicassoLoader.PicassoImageLoaderManager.ClearMemoryCache | app/src/main/java/com/motondon/lazyloaddemoapp/imageloader/picasso/PicassoImageLoaderManager.java:174-179 | one memory-clearing call is made into the library |
| PicassoLoader.PicassoImageLoaderManager.ClearDiskCache | app/src/main/java/com/motondon/lazyloaddemoapp/imageloader/picasso/PicassoImageLoaderManager.java:181-190 | result and directory are as `PicassoModel.ClearDiskCache` says |
| PicassoLoader.PicassoImageLoaderManager.OnViewDetachedFromWindow | app/src/main/java/com/motondon/lazyloaddemoapp/imageloader/picasso/PicassoImageLoaderManager.java:218-226 | the state changes as `PicassoModel.OnViewDetachedFromWindow` says |
| FrescoModel.BuildRequest | app/src/main/java/com/motondon/lazyloaddemoapp/imageloader/fresco/FrescoImageLoaderManager.java:130-137 | resize options are set if and only if width and height are both positive, and then with those values |
| FrescoModel.SubscribeRecords | app/src/main/java/com/motondon/lazyloaddemoapp/imageloader/fresco/FrescoImageLoaderManager.java:137-151 | the uri maps to the new data source, replacing any earlier one, and other uris keep theirs; the fetch and subscription are logged; a memory hit, handled inside `subscribe`, shows its bitmap, and otherwise the view is untouched |
| FrescoModel.ResultHandling | app/src/main/java/com/motondon/lazyloaddemoapp/imageloader/fresco/FrescoImageLoaderManager.java:83-99 | the entry goes exactly when the result is a present, not recycled bitmap, which is then shown; otherwise nothing changes |
| FrescoModel.FailureUnregisters | app/src/main/java/com/motondon/lazyloaddemoapp/imageloader/fresco/FrescoImageLoaderManager.java:102-112 | failure shows the error image and drops the entry |
| FrescoModel.DetachCloses | app/src/main/java/com/motondon/lazyloaddemoapp/imageloader/fresco/FrescoImageLoaderManager.java:173-183 | a registered url's data source is closed and dropped; an unregistered url changes nothing |
| FrescoModel.LoadImageCalls | app/src/main/java/com/motondon/lazyloaddemoapp/imageloader/fresco/FrescoImageLoaderManager.java:49-74 | placeholder first, then the evictions, then a fetch without resizing (0, 0) and the subscription, recorded under the url; on return the view shows the memory-cached bitmap (memory flag on) or the placeholder |
| FrescoModel.MemoryHitStaysPending | app/src/main/java/com/motondon/lazyloaddemoapp/imageloader/fresco/FrescoImageLoaderManager.java:83-99 | a memory hit's result is handled at line 146, before the put at lines 149-151, so the finished data source stays recorded and a later detach closes it |
| FrescoModel.EvictionsFollowFlags | app/src/main/java/com/motondon/lazyloaddemoapp/imageloader/fresco/FrescoImageLoaderManager.java:57-71 | a tier is evicted exactly when its flag is off, memory before disk |
| FrescoLoader.FrescoImageLoaderManager.constructor | app/src/main/java/com/motondon/lazyloaddemoapp/imageloader/fresco/FrescoImageLoaderManager.java:35-41 | the manager starts with the given flags and no pending loads |
| FrescoLoader.FrescoImageLoaderManager.LoadImage | app/src/main/java/com/motondon/lazyloaddemoapp/imageloader/fresco/FrescoImageLoaderManager.java:49-74 | the state changes as `FrescoModel.LoadImage` says, with a fresh data source; a memory hit is passed on only with the memory flag on |
| FrescoLoader.FrescoImageLoaderManager.Subscribe | app/src/main/java/com/motondon/lazyloaddemoapp/imageloader/fresco/FrescoImageLoaderManager.java:125-152 | the state changes as `FrescoModel.Subscribe` says, with a fresh data source: fetch, subscribe, the synchronous result of a memory hit, then the put |
| FrescoLoader.FrescoImageLoaderManager.OnNewResult | app/src/main/java/com/motondon/lazyloaddemoapp/imageloader/fresco/FrescoImageLoaderManager.java:83-99 | the state changes as `FrescoModel.OnNewResult` says |
| FrescoLoader.FrescoImageLoaderManager.OnFailure | app/src/main/java/com/motondon/lazyloaddemoapp/imageloader/fresco/FrescoImageLoaderManager.java:102-112 | the state changes as `FrescoModel.OnFailure` says |
| FrescoLoader.FrescoImageLoaderManager.ClearCache | app/src/main/java/com/motondon/lazyloaddemoapp/imageloader/fresco/FrescoImageLoaderManager.java:155-158 | one cache-clearing call is made into the pipeline |
| FrescoLoader.FrescoImageLoaderManager.OnViewDetachedFromWindow | app/src/main/java/com/motondon/lazyloaddemoapp/imageloader/fresco/FrescoImageLoaderManager.java:173-183 | the state changes as `FrescoModel.OnViewDetachedFromWindow` says |
| LibraryModel.LoadCarriesFlags | app/src/main/java/com/motondon/lazyloaddemoapp/imageloader/glide/GlideImageLoaderManager.java:77-91 | a request carries the flags in force when it is made |
| LibraryLoaders.LibraryImageLoaderManager.constructor | app/src/main/java/com/motondon/lazyloaddemoapp/imageloader/glide/GlideImageLoaderManager.java:29-32 | the manager starts with the given flags and no calls |
| LibraryLoaders.LibraryImageLoaderManager.LoadImage | app/src/main/java/com/motondon/lazyloaddemoapp/imageloader/glide/GlideImageLoaderManager.java:40-104 | one request with the current flags is handed to the library |
| LibraryLoaders.LibraryImageLoaderManager.ClearCache | app/src/main/java/com/motondon/lazyloaddemoapp/imageloader/glide/GlideImageLoaderManager.java:134-147 | one clear-both-caches call is made |
| LibraryLoaders.LibraryImageLoaderManager.OnViewDetachedFromWindow | app/src/main/java/com/motondon/lazyloaddemoapp/imageloader/glide/GlideImageLoaderManager.java:150-152 | nothing changes |
| Presenter.MainPresenterImpl.constructor | app/src/main/java/com/motondon/lazyloaddemoapp/presenter/MainPresenterImpl.java:25-32 | both flags start true and no manager exists yet |
| Presenter.MainPresenterImpl.LoadImage | app/src/main/java/com/motondon/lazyloaddemoapp/presenter/MainPresenterImpl.java:35-37 | the request goes unchanged to the current manager, with that manager's own effect; nothing else changes. `cached` is the Picasso or Fresco library's memory-cache content for the url |
| Presenter.MainPresenterImpl.ClearCache | app/src/main/java/com/motondon/lazyloaddemoapp/presenter/MainPresenterImpl.java:40-42 | forwarded unchanged to the current manager |
| Presenter.MainPresenterImpl.SetMemoryCache | app/src/main/java/com/motondon/lazyloaddemoapp/presenter/MainPresenterImpl.java:45-48 | the presenter's flag takes the value and the same value reaches the manager; the disk flag is untouched |
| Presenter.MainPresenterImpl.SetDiskCache | app/src/main/java/com/motondon/lazyloaddemoapp/presenter/MainPresenterImpl.java:51-54 | the presenter's flag takes the value and the same value reaches the manager; the memory flag is untouched |
| Presenter.MainPresenterImpl.BuildManager | app/src/main/java/com/motondon/lazyloaddemoapp/presenter/MainPresenterImpl.java:59-79 | a fresh manager of the chosen kind is built with the presenter's current flags |
| Presenter.MainPresenterImpl.SetDownloadEngine | app/src/main/java/com/motondon/lazyloaddemoapp/presenter/MainPresenterImpl.java:57-87 | build, then clear the new manager's caches, re-apply disk then memory flag, reset the adapter, in that order; the presenter's flags persist and the new manager ends up with them |
| Presenter.MainPresenterImpl.OnViewDetachedFromWindow | app/src/main/java/com/motondon/lazyloaddemoapp/presenter/MainPresenterImpl.java:90-92 | forwarded unchanged to the current manager |

## Left out

- Threads: the fixed pool of five threads, the `Handler`, the synchronized map and the `synchronized` blocks are not modelled. Submitted tasks, paused tasks and posted runnables are queues, and each step runs one item of one queue atomically, in any order.
- Concurrent file access is not modelled. Tasks that race on the same cache file are still serialized into atomic steps.
- `WeakHashMap`: views are never collected; the slot map is a plain map keyed by a view number.
- The network: `HttpURLConnection`, its timeouts and redirects are not modelled. A fetch is an oracle giving the chunks read or the exception thrown. `Utils.CopyStream` is not part of this model; it is taken to copy all bytes.
- `BitmapFactory`: decoding is an oracle for the bounds and for a decode at a sample size. Only the integer scale loop is modelled.
- `MemoryCache` is not part of this model. It is a finite map with get, add and clear, with no eviction or size budget.
- `FileCache`'s environment probing is reduced to a "mounted" flag and the two candidate roots. Whether `mkdirs` is permitted (a storage permission) is a parameter.
- `FileSystem.ListFiles` lists the regular files of a directory only, while `listFiles()` also returns subdirectories. With external storage unmounted, the cache root is the application's cache directory, which also holds the libraries' cache directories (such as `picasso-cache`). There `FileCache.clear()` would delete any of them that is empty; that deletion is not modelled.
- Picasso's cache tree and the manual loader's disk are held as two separate stores.
- The Picasso and Fresco libraries' own behaviour is out of scope: fetching, caching, `PicassoTools`, `Fresco.initialize`. Their calls are recorded in order. The asynchronous callbacks are methods the library may call at any time after `loadImage` returns. The synchronous answers are part of `loadImage`, and what each library's memory cache holds is a parameter. For Picasso, `into()` answers with a memory hit or `onPrepareLoad`. For Fresco, a memory hit finishes the data source, and the subscriber runs on the calling UI thread inside `subscribe`.
- The indicator and priority settings of the Picasso request are fixed and not recorded.
- Fresco's `Uri.parse(url).toString()` is taken to give back `url`. Fresco's bitmap copy is the same image.
- Glide and UIL are reduced to the calls they make: a request carrying the flags, and one "clear both caches" call. The Glide memory/disk split and its worker thread are not modelled, and neither are the placeholder and error images these two managers set.
- The adapter reset and the rest of the UI (`MainActivity`, `MainFragment`, `ImageAdapter`) are not modelled; the reset is only recorded in the presenter's ghost call trace.
- Presenter.MainPresenterImpl.LoadImage, ClearCache, SetMemoryCache, SetDiskCache and OnViewDetachedFromWindow require a manager to exist. In the source they would throw NullPointerException on a `null` manager, and `MainActivity.java:85` sets the engine first.
- A manager replaced by `setDownloadEngine` is not shut down. Its thread pool keeps running queued work against the shared views and disk, and in the source that work can paint a view the new manager has re-bound. The model does not follow the old manager, so `LoaderSpec.LatestRequestWins` is a per-manager guarantee.
- PicassoLoader.DeleteDir: every directory can be listed. In the source, `dir.list()` returns `null` for a directory it cannot read (an I/O error, or one removed after `isDirectory()`), and `children.length` then throws a NullPointerException out of `clearDiskCache` and `clearCache`. That error path is not modelled.
- `Log` and `Toast` calls, and the exceptions caught only to be printed in the Picasso constructor, are not modelled.
- LoaderSpec.DecodeFile: the contract states only that a `null` file throws NullPointerException, not the converse, because the decode oracle may itself throw one.
