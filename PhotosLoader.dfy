/**
 * `PhotosLoader`: the runnable a pool thread executes for one request. Its
 * methods act on the manager's objects and are proved to do what the matching
 * functions of LoaderSpec describe.
 */
module PhotosLoading {
  import opened Wrappers
  import opened JavaIo
  import opened Model
  import opened Sampling
  import opened ManualLoader
  import LoaderSpec

  /** `readFully`: appends every chunk the stream delivers to the output, in order. */
  method ReadFully(input: seq<Bytes>) returns (output: Bytes)
    ensures output == Concat(input)
    ensures |output| == TotalLength(input)
  {
    output := [];
    var i := 0;
    while i < |input|
      invariant 0 <= i <= |input|
      invariant output == Concat(input[..i])
    {
      output := output + input[i];
      assert input[..i + 1][..i] == input[..i];
      i := i + 1;
    }
    assert input[..i] == input;
    ConcatLength(input);
  }

  /** `decodeFile`: bounds, the sample-size loop, and the decode at that size. */
  method DecodeFile(fs: FileSystem, codec: LoaderSpec.Codec, f: Option<Path>) returns (r: Outcome<Option<Bitmap>>)
    ensures r == LoaderSpec.DecodeFile(fs.State(), codec, f)
  {
    if f.None? {
      return Raised(NullPointerException);
    }
    var content := fs.Read(f.value);
    if content.None? {
      return Normal(None);
    }
    var dims := codec.bounds(content.value);
    var scale, _, _ := ComputeScale(dims.outWidth, dims.outHeight);
    r := codec.decode(content.value, scale as int);
    if r == Raised(IOException) {
      r := Normal(None);
    }
  }

  /** The `catch` of `getBitmap`. */
  method Failed(m: ManualImageLoaderManager, e: Throwable) returns (r: Outcome<Option<Bitmap>>)
    modifies m.memoryCacheObject
    ensures (m.State(), r) == LoaderSpec.Failed(old(m.State()), e)
  {
    if e == OutOfMemoryError {
      m.ClearMemoryCache();
    }
    r := Normal(None);
  }

  /** The `try` block of `getBitmap`. */
  method Download(m: ManualImageLoaderManager, task: LoaderSpec.PhotosLoader, f: Option<Path>, net: LoaderSpec.Network, codec: LoaderSpec.Codec)
    returns (r: Outcome<Option<Bitmap>>)
    modifies m.memoryCacheObject, m.fileCache.fs
    ensures (m.State(), r) == LoaderSpec.Download(old(m.State()), task, f, net, codec)
  {
    var response := net(task.imageModel.url);
    if response.Raised? {
      r := Failed(m, response.error);
      return;
    }
    var chunks := response.value;
    if task.useDiskCache {
      if f.None? {
        r := Failed(m, NullPointerException);
        return;
      }
      var ok := m.fileCache.fs.Write(f.value, Concat(chunks));
      if !ok {
        r := Failed(m, IOException);
        return;
      }
      var b := DecodeFile(m.fileCache.fs, codec, f);
      if b.Raised? {
        r := Failed(m, b.error);
        return;
      }
      r := b;
    } else {
      var imageInBytes := ReadFully(chunks);
      var bitmap := codec.decode(imageInBytes, 1);
      if bitmap.Raised? {
        r := Failed(m, bitmap.error);
        return;
      }
      r := bitmap;
    }
  }

  /** `getBitmap`; `Raised` is an exception that leaves it. */
  method GetBitmap(m: ManualImageLoaderManager, task: LoaderSpec.PhotosLoader, net: LoaderSpec.Network, codec: LoaderSpec.Codec)
    returns (r: Outcome<Option<Bitmap>>)
    modifies m.memoryCacheObject, m.fileCache.fs
    ensures (m.State(), r) == LoaderSpec.GetBitmap(old(m.State()), task, net, codec)
  {
    var f := m.GetFileCache(task.imageModel.url);
    if task.useDiskCache {
      var b := DecodeFile(m.fileCache.fs, codec, f);
      if b.Raised? || b.value.Some? {
        return b;
      }
    }
    r := Download(m, task, f, net, codec);
  }

  /** `run` up to its second staleness check; an exception is swallowed. */
  method Run(m: ManualImageLoaderManager, task: LoaderSpec.PhotosLoader, net: LoaderSpec.Network, codec: LoaderSpec.Codec)
    modifies m, m.memoryCacheObject, m.fileCache.fs
    ensures m.State() == LoaderSpec.Run(old(m.State()), task, net, codec)
  {
    var reused := m.ImageViewReused(task.imageModel);
    if reused {
      return;
    }
    var bmp := GetBitmap(m, task, net, codec);
    if bmp.Raised? {
      return;
    }
    if task.useMemoryCache {
      m.AddMemoryCache(task.imageModel.url, bmp.value);
    }
    m.Suspend(LoaderSpec.Worker(task, bmp.value));
  }

  /** The rest of `run`: the second check, then `displayImage`. */
  method Resume(m: ManualImageLoaderManager, w: LoaderSpec.Worker)
    modifies m
    ensures m.State() == LoaderSpec.Resume(old(m.State()), w)
  {
    var reused := m.ImageViewReused(w.loader.imageModel);
    if reused {
      return;
    }
    m.DisplayImage(w.bmp, w.loader.imageModel);
  }

  /** A pool thread takes the `i`-th queued task and runs it. */
  method ExecuteTask(m: ManualImageLoaderManager, i: nat, net: LoaderSpec.Network, codec: LoaderSpec.Codec)
    requires i < |m.executorQueue|
    modifies m, m.memoryCacheObject, m.fileCache.fs
    ensures m.State() == LoaderSpec.StartTask(old(m.State()), i, net, codec)
  {
    var task := m.TakeTask(i);
    Run(m, task, net, codec);
  }

  /** The thread holding the `i`-th fetched bitmap goes on. */
  method ContinueTask(m: ManualImageLoaderManager, i: nat)
    requires i < |m.workers|
    modifies m
    ensures m.State() == LoaderSpec.FinishTask(old(m.State()), i)
  {
    var w := m.TakeWorker(i);
    Resume(m, w);
  }
}
