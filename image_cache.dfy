/**
 * The URI/path image cache: a memo table from image source to the one fetch task
 * spawned for it, and the body of that task (acquire the bytes, then decode).
 */
module ImageCaching {
  import opened Base
  import opened Platform
  import opened AssetCaching

  /** Decoded RGBA pixels (`ImageData`); `id` stands for the pixel contents. */
  datatype ImageData = ImageData(id: nat, size: DeviceSize)

  /** Every way fetching and decoding an image can fail. */
  datatype ImageCacheError =
    | Client(http: HttpError)
    | Io(io: IoError)
    | BadStatus(status: StatusCode, body: string)
    | Image(image: ImageError)
    | Usvg(usvg: UsvgError)

  /** `From<std::io::Error>`. */
  function FromIoError(e: IoError): ImageCacheError { Io(e) }

  /** `From<ImageError>`. */
  function FromImageError(e: ImageError): ImageCacheError { Image(e) }

  /** `From<resvg::usvg::Error>`. */
  function FromUsvgError(e: UsvgError): ImageCacheError { Usvg(e) }

  /** `#[from] http::Error`. */
  function FromHttpError(e: HttpError): ImageCacheError { Client(e) }

  /** The conversions keep the cause and tag it with its own variant. */
  lemma ErrorConversionsKeepCause(io: IoError, image: ImageError, usvg: UsvgError, http: HttpError)
    ensures FromIoError(io).Io? && FromIoError(io).io == io
    ensures FromImageError(image).Image? && FromImageError(image).image == image
    ensures FromUsvgError(usvg).Usvg? && FromUsvgError(usvg).usvg == usvg
    ensures FromHttpError(http).Client? && FromHttpError(http).http == http
  {
  }

  /**
   * The first half of the fetch body, shared with `RasterOrVector::load`: read a
   * path from disk, or GET a URI following redirects, read the whole body, and
   * reject a non-2xx status with the status and the body decoded lossily.
   */
  function AcquireBytes(source: UriOrPath, client: HttpClient, fs: FileSystem,
                        utf8Lossy: Bytes -> string): (r: Result<Bytes, ImageCacheError>)
    ensures r.Err? ==> r.error.Client? || r.error.Io? || r.error.BadStatus?
    ensures source.Path? && fs.read(source.path).Ok? ==> r == Ok(fs.read(source.path).value)
    ensures source.Path? && fs.read(source.path).Err? ==> r == Err(Io(fs.read(source.path).error))
    ensures source.Uri? && client.get(source.uri, true).Err? ==> r == Err(Client(client.get(source.uri, true).error))
    ensures source.Uri? && client.get(source.uri, true).Ok? && client.get(source.uri, true).value.body.Err? ==>
              r == Err(Io(client.get(source.uri, true).value.body.error))
    ensures source.Uri? && client.get(source.uri, true).Ok? && client.get(source.uri, true).value.body.Ok?
              && IsSuccess(client.get(source.uri, true).value.status) ==>
              r == Ok(client.get(source.uri, true).value.body.value)
  {
    match source
    case Path(p) =>
      (match fs.read(p)
       case Ok(bytes) => Ok(bytes)
       case Err(e) => Err(FromIoError(e)))
    case Uri(u) =>
      match client.get(u, true)
      case Err(e) => Err(FromHttpError(e))
      case Ok(response) =>
        match response.body
        case Err(e) => Err(FromIoError(e))
        case Ok(body) =>
          if !IsSuccess(response.status) then Err(BadStatus(response.status, utf8Lossy(body)))
          else Ok(body)
  }

  /** The async body of the task `ImageCache::get` spawns: acquire the bytes, then `ImageData::try_from_bytes`. */
  function FetchImage(source: UriOrPath, client: HttpClient, fs: FileSystem, utf8Lossy: Bytes -> string,
                      tryFromBytes: Bytes -> Result<ImageData, ImageError>): (r: Result<ImageData, ImageCacheError>)
    ensures AcquireBytes(source, client, fs, utf8Lossy).Err? ==> r == Err(AcquireBytes(source, client, fs, utf8Lossy).error)
    ensures r.Err? ==> AcquireBytes(source, client, fs, utf8Lossy).Err? || r.error.Image?
  {
    match AcquireBytes(source, client, fs, utf8Lossy)
    case Err(e) => Err(e)
    case Ok(bytes) =>
      match tryFromBytes(bytes)
      case Ok(data) => Ok(data)
      case Err(e) => Err(FromImageError(e))
  }

  /** The `map_err` closure: logs the error (not modelled) and hands it back unchanged. */
  function LogError(source: UriOrPath, error: ImageCacheError): ImageCacheError
  {
    error
  }

  /**
   * What the spawned task resolves to: the fetch body followed by the `map_err`
   * step, which only logs, so the task yields exactly what the fetch body yields.
   */
  function FetchImageTask(source: UriOrPath, client: HttpClient, fs: FileSystem, utf8Lossy: Bytes -> string,
                          tryFromBytes: Bytes -> Result<ImageData, ImageError>): (r: Result<ImageData, ImageCacheError>)
    ensures r == FetchImage(source, client, fs, utf8Lossy, tryFromBytes)
  {
    match FetchImage(source, client, fs, utf8Lossy, tryFromBytes)
    case Ok(data) => Ok(data)
    case Err(e) => Err(LogError(source, e))
  }

  /**
   * A `Path` source is read from disk: the HTTP client plays no part in the outcome,
   * and the file's contents are what is decoded.
   */
  lemma PathIsReadFromDisk(path: string, client: HttpClient, otherClient: HttpClient, fs: FileSystem,
                           utf8Lossy: Bytes -> string, tryFromBytes: Bytes -> Result<ImageData, ImageError>)
    ensures FetchImage(Path(path), client, fs, utf8Lossy, tryFromBytes)
         == FetchImage(Path(path), otherClient, fs, utf8Lossy, tryFromBytes)
    ensures fs.read(path).Err? ==>
              FetchImage(Path(path), client, fs, utf8Lossy, tryFromBytes) == Err(Io(fs.read(path).error))
    ensures fs.read(path).Ok? && tryFromBytes(fs.read(path).value).Ok? ==>
              FetchImage(Path(path), client, fs, utf8Lossy, tryFromBytes) == Ok(tryFromBytes(fs.read(path).value).value)
    ensures fs.read(path).Ok? && tryFromBytes(fs.read(path).value).Err? ==>
              FetchImage(Path(path), client, fs, utf8Lossy, tryFromBytes) == Err(Image(tryFromBytes(fs.read(path).value).error))
  {
  }

  /**
   * A `Uri` source is fetched with redirect-following on: only the client's answer
   * to a redirect-following GET of that URI matters, and the disk is not read.
   */
  lemma UriIsFetchedFollowingRedirects(uri: string, client: HttpClient, otherClient: HttpClient,
                                       fs: FileSystem, otherFs: FileSystem, utf8Lossy: Bytes -> string,
                                       tryFromBytes: Bytes -> Result<ImageData, ImageError>)
    requires client.get(uri, true) == otherClient.get(uri, true)
    ensures FetchImage(Uri(uri), client, fs, utf8Lossy, tryFromBytes)
         == FetchImage(Uri(uri), otherClient, otherFs, utf8Lossy, tryFromBytes)
  {
  }

  /**
   * The fetch fails with `BadStatus` exactly when the GET and the body read both
   * succeed but the status is not 2xx; the error carries that status and the body.
   */
  lemma BadStatusExactly(source: UriOrPath, client: HttpClient, fs: FileSystem, utf8Lossy: Bytes -> string,
                         tryFromBytes: Bytes -> Result<ImageData, ImageError>)
    ensures var r := FetchImage(source, client, fs, utf8Lossy, tryFromBytes);
            (r.Err? && r.error.BadStatus?)
              <==> (&& source.Uri?
                    && client.get(source.uri, true).Ok?
                    && client.get(source.uri, true).value.body.Ok?
                    && !IsSuccess(client.get(source.uri, true).value.status))
    ensures var r := FetchImage(source, client, fs, utf8Lossy, tryFromBytes);
            r.Err? && r.error.BadStatus? ==>
              var response := client.get(source.uri, true).value;
              r.error.status == response.status && r.error.body == utf8Lossy(response.body.value)
  {
  }

  /**
   * Otherwise the outcome is the decoder's: `Ok` with the decoded data exactly when
   * the bytes were acquired and decode, and an `Image` error only from the decoder.
   */
  lemma DecodeDecides(source: UriOrPath, client: HttpClient, fs: FileSystem, utf8Lossy: Bytes -> string,
                      tryFromBytes: Bytes -> Result<ImageData, ImageError>)
    ensures var bytes := AcquireBytes(source, client, fs, utf8Lossy);
            var r := FetchImage(source, client, fs, utf8Lossy, tryFromBytes);
            && (r.Ok? <==> bytes.Ok? && tryFromBytes(bytes.value).Ok?)
            && (r.Ok? ==> r.value == tryFromBytes(bytes.value).value)
            && (r.Err? && r.error.Image? <==> bytes.Ok? && tryFromBytes(bytes.value).Err?)
            && (r.Err? && r.error.Image? ==> r.error.image == tryFromBytes(bytes.value).error)
  {
  }

  /**
   * `ImageCache`: the memo table. `fetched` records, in order, every source a fetch
   * task was spawned for by this cache.
   */
  class ImageCache {
    const client: HttpClient
    var images: map<UriOrPath, TaskHandle>
    ghost var fetched: seq<UriOrPath>

    /**
     * Every stored task is the one spawned for its own key, a key has a task exactly
     * when a fetch was spawned for it, and no key was fetched twice.
     */
    ghost predicate Valid(executor: BackgroundExecutor<UriOrPath>)
      reads this, executor
    {
      && NoDuplicates(fetched)
      && (forall k :: k in images <==> k in fetched)
      && (forall k :: k in images ==>
            images[k].index < |executor.spawned| && executor.spawned[images[k].index] == k)
    }

    /** `ImageCache::new`: no entries. */
    constructor (client: HttpClient)
      ensures this.client == client
      ensures images == map[] && fetched == []
    {
      this.client := client;
      images := map[];
      fetched := [];
    }

    /**
     * `ImageCache::get`: on a hit, the stored task and nothing changes; on a miss,
     * exactly one fetch task is spawned for `source`, stored under it and returned.
     */
    method Get(source: UriOrPath, executor: BackgroundExecutor<UriOrPath>) returns (task: TaskHandle)
      requires Valid(executor)
      modifies this`images, this`fetched, executor
      ensures Valid(executor)
      ensures images == old(images)[source := task]
      ensures source in old(images) ==>
                && task == old(images)[source]
                && fetched == old(fetched)
                && executor.spawned == old(executor.spawned)
      ensures source !in old(images) ==>
                && executor.spawned == old(executor.spawned) + [source]
                && task == TaskHandle(|old(executor.spawned)|)
                && fetched == old(fetched) + [source]
                && (forall k :: k in old(images) ==> old(images)[k] != task)
    {
      if source in images {
        task := images[source];
      } else {
        task := executor.Spawn(source);
        images := images[source := task];
        fetched := fetched + [source];
      }
    }
  }

  /** At most once per key: a cached key was fetched exactly once, any other key never. */
  lemma FetchedAtMostOnce(cache: ImageCache, executor: BackgroundExecutor<UriOrPath>, source: UriOrPath)
    requires cache.Valid(executor)
    ensures multiset(cache.fetched)[source] == if source in cache.images then 1 else 0
  {
    CountWithoutDuplicates(cache.fetched, source);
  }
}
