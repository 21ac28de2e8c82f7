/**
 * The image element: where it gets its pixels (`ImageSource::data`), the two
 * assets it loads through the asset cache (`RasterOrVector`, `Vector`), how it
 * sizes itself before layout, and the object-fit geometry used when painting.
 */
module ImageElement {
  import opened Base
  import opened Platform
  import opened AssetCaching
  import opened ImageCaching
  import opened SvgRendering

  // ---------------------------------------------------------------------------
  // Object-fit geometry. `Pixels` are `f32`; the model computes over `real`.

  datatype Point = Point(x: real, y: real)

  datatype Size = Size(width: real, height: real)

  datatype Bounds = Bounds(origin: Point, size: Size)

  /** How to fit the image into the bounds of the element. */
  datatype ObjectFit = Fill | Contain | Cover | None

  /** `u32::from(DevicePixels)`: the `i32` reinterpreted as `u32`. */
  function U32Of(d: i32): nat
  {
    d % 0x1_0000_0000
  }

  /** `image_size.map(|d| Pixels::from(u32::from(d)))`. */
  function ImagePixels(imageSize: DeviceSize): Size
  {
    Size(U32Of(imageSize.width) as real, U32Of(imageSize.height) as real)
  }

  predicate Positive(size: Size)
  {
    size.width > 0.0 && size.height > 0.0
  }

  /** `size` placed so that it is centred on `bounds`. */
  function CentredIn(bounds: Bounds, size: Size): Bounds
  {
    Bounds(Point(bounds.origin.x + (bounds.size.width - size.width) / 2.0,
                 bounds.origin.y + (bounds.size.height - size.height) / 2.0),
           size)
  }

  /**
   * `ObjectFit::get_bounds`. `Contain` and `Cover` divide by the sizes, so they are
   * modelled for positive sizes only; `Fill` and `None` never use the ratios.
   * `Fill` stretches the image over the bounds, `None` keeps its natural size at
   * the bounds' origin, and `Contain` and `Cover` centre the result: equal margins
   * on opposite sides.
   */
  function GetBounds(fit: ObjectFit, bounds: Bounds, imageSize: DeviceSize): (r: Bounds)
    requires (fit.Contain? || fit.Cover?) ==> Positive(bounds.size) && Positive(ImagePixels(imageSize))
    ensures fit.Fill? ==> r == bounds
    ensures fit.None? ==> r == Bounds(bounds.origin, ImagePixels(imageSize))
    ensures fit.Contain? || fit.Cover? ==>
              && r.origin.x - bounds.origin.x == (bounds.origin.x + bounds.size.width) - (r.origin.x + r.size.width)
              && r.origin.y - bounds.origin.y == (bounds.origin.y + bounds.size.height) - (r.origin.y + r.size.height)
  {
    var image := ImagePixels(imageSize);
    match fit
    case Fill => bounds
    case Contain =>
      var newSize :=
        if bounds.size.width / bounds.size.height > image.width / image.height
        then Size(image.width * (bounds.size.height / image.height), bounds.size.height)
        else Size(bounds.size.width, image.height * (bounds.size.width / image.width));
      CentredIn(bounds, newSize)
    case Cover =>
      var newSize :=
        if bounds.size.width / bounds.size.height > image.width / image.height
        then Size(bounds.size.width, image.height * (bounds.size.width / image.width))
        else Size(image.width * (bounds.size.height / image.height), bounds.size.height);
      CentredIn(bounds, newSize)
    case None => Bounds(bounds.origin, image)
  }

  /** The bounds are wider than the image exactly when their ratio is the larger. */
  lemma RatioComparison(bounds: Size, image: Size)
    requires Positive(bounds) && Positive(image)
    ensures bounds.width / bounds.height > image.width / image.height
            <==> bounds.width * image.height > image.width * bounds.height
  {
    var bw, bh, iw, ih := bounds.width, bounds.height, image.width, image.height;
    assert bw / bh == (bw * ih) / (bh * ih);
    assert iw / ih == (iw * bh) / (bh * ih);
  }

  /** Scaling the image to the bounds' height: the width it gets keeps the image's ratio. */
  lemma ScaleToHeight(bounds: Size, image: Size)
    requires Positive(bounds) && Positive(image)
    ensures var w := image.width * (bounds.height / image.height);
            && w * image.height == bounds.height * image.width
            && (w <= bounds.width <==> image.width * bounds.height <= bounds.width * image.height)
  {
    var w := image.width * (bounds.height / image.height);
    assert w * image.height == image.width * bounds.height;
    assert w <= bounds.width <==> w * image.height <= bounds.width * image.height;
  }

  /** Scaling the image to the bounds' width: the height it gets keeps the image's ratio. */
  lemma ScaleToWidth(bounds: Size, image: Size)
    requires Positive(bounds) && Positive(image)
    ensures var h := image.height * (bounds.width / image.width);
            && bounds.width * image.height == h * image.width
            && (h <= bounds.height <==> bounds.width * image.height <= image.width * bounds.height)
  {
    var h := image.height * (bounds.width / image.width);
    assert h * image.width == image.height * bounds.width;
    assert h <= bounds.height <==> h * image.width <= bounds.height * image.width;
  }

  /**
   * `Contain`: the result fits inside the bounds, fills them along the limiting
   * axis, and keeps the image's aspect ratio.
   */
  lemma ContainFitsInside(bounds: Bounds, imageSize: DeviceSize)
    requires Positive(bounds.size) && Positive(ImagePixels(imageSize))
    ensures var r := GetBounds(Contain, bounds, imageSize).size;
            var image := ImagePixels(imageSize);
            && r.width <= bounds.size.width && r.height <= bounds.size.height
            && (r.width == bounds.size.width || r.height == bounds.size.height)
            && r.width * image.height == r.height * image.width
  {
    var b, image := bounds.size, ImagePixels(imageSize);
    var r := GetBounds(Contain, bounds, imageSize).size;
    RatioComparison(b, image);
    if b.width / b.height > image.width / image.height {
      assert r == Size(image.width * (b.height / image.height), b.height);
      ScaleToHeight(b, image);
    } else {
      assert r == Size(b.width, image.height * (b.width / image.width));
      ScaleToWidth(b, image);
    }
  }

  /**
   * `Cover`: the result covers the bounds, matches them along one axis, and keeps
   * the image's aspect ratio.
   */
  lemma CoverCoversBounds(bounds: Bounds, imageSize: DeviceSize)
    requires Positive(bounds.size) && Positive(ImagePixels(imageSize))
    ensures var r := GetBounds(Cover, bounds, imageSize).size;
            var image := ImagePixels(imageSize);
            && r.width >= bounds.size.width && r.height >= bounds.size.height
            && (r.width == bounds.size.width || r.height == bounds.size.height)
            && r.width * image.height == r.height * image.width
  {
    var b, image := bounds.size, ImagePixels(imageSize);
    var r := GetBounds(Cover, bounds, imageSize).size;
    RatioComparison(b, image);
    if b.width / b.height > image.width / image.height {
      assert r == Size(b.width, image.height * (b.width / image.width));
      ScaleToWidth(b, image);
    } else {
      assert r == Size(image.width * (b.height / image.height), b.height);
      ScaleToHeight(b, image);
    }
  }

  /**
   * Equal ratios take the `else` branch of both modes, and that branch then
   * reproduces the bounds exactly: no special case is needed.
   */
  lemma EqualRatiosFillBounds(bounds: Bounds, imageSize: DeviceSize)
    requires Positive(bounds.size) && Positive(ImagePixels(imageSize))
    requires bounds.size.width * ImagePixels(imageSize).height == ImagePixels(imageSize).width * bounds.size.height
    ensures !(bounds.size.width / bounds.size.height > ImagePixels(imageSize).width / ImagePixels(imageSize).height)
    ensures GetBounds(Contain, bounds, imageSize) == bounds
    ensures GetBounds(Cover, bounds, imageSize) == bounds
  {
    var image := ImagePixels(imageSize);
    RatioComparison(bounds.size, image);
    ScaleToHeight(bounds.size, image);
    ScaleToWidth(bounds.size, image);
    assert image.height * (bounds.size.width / image.width) == bounds.size.height;
    assert image.width * (bounds.size.height / image.height) == bounds.size.width;
  }

  /** A 100x100 image contained in a 200x100 box is 100x100 at (50, 0) relative to the box. */
  lemma ContainExample()
    ensures GetBounds(Contain, Bounds(Point(0.0, 0.0), Size(200.0, 100.0)), DeviceSize(100, 100))
         == Bounds(Point(50.0, 0.0), Size(100.0, 100.0))
  {
  }

  /** A 100x100 image covering a 100x200 box is 200x200 at (-50, 0) relative to the box. */
  lemma CoverExample()
    ensures GetBounds(Cover, Bounds(Point(0.0, 0.0), Size(100.0, 200.0)), DeviceSize(100, 100))
         == Bounds(Point(-50.0, 0.0), Size(200.0, 200.0))
  {
  }

  // ---------------------------------------------------------------------------
  // Image sources, the decoded asset, and the two assets loaded through the cache.

  /** A source of image content. `Surface` is a platform video buffer, known by its identity. */
  datatype ImageSource = Uri(uri: string) | File(path: string) | Data(data: ImageData) | Surface(surface: nat)

  /** What a URI or a file decodes to: raster pixels, or a parsed SVG tree with its id. */
  datatype RasterOrVector = Raster(data: ImageData) | Vector(tree: Tree, id: u64)

  /** The source of the `Vector` asset: a tree and the size to rasterize it at. */
  datatype VectorKey = VectorKey(data: Tree, id: u64, size: DeviceSize)

  /** What the `Hash` impl of `VectorKey` writes: the id, then the size; never the tree. */
  function VectorKeyFeed(key: VectorKey): seq<HashToken>
  {
    [Word(key.id as int), Word(key.size.width), Word(key.size.height)]
  }

  /**
   * Keys that agree on id and size land on the same cache entry whatever their
   * trees, and keys that differ in id or size are told apart before hashing.
   */
  lemma VectorKeyHashIgnoresTree(a: VectorKey, b: VectorKey, hasher: Hasher)
    ensures VectorKeyFeed(a) == VectorKeyFeed(b) <==> a.id == b.id && a.size == b.size
    ensures a.id == b.id && a.size == b.size ==>
              KeyOf(VectorType, VectorKeyFeed(a), hasher) == KeyOf(VectorType, VectorKeyFeed(b), hasher)
  {
    if VectorKeyFeed(a) == VectorKeyFeed(b) {
      assert VectorKeyFeed(a)[0] == VectorKeyFeed(b)[0];
      assert VectorKeyFeed(a)[1] == VectorKeyFeed(b)[1];
      assert VectorKeyFeed(a)[2] == VectorKeyFeed(b)[2];
    }
  }

  /**
   * The documented risk of that choice: once an image is cached for one key, a key
   * with the same id and size but a different tree is answered with that image.
   */
  lemma VectorKeysShareEntry(assets: map<CacheKey, AnyAsset>, hasher: Hasher, a: VectorKey, b: VectorKey,
                             image: ImageData)
    requires a.id == b.id && a.size == b.size
    ensures Lookup(assets[KeyOf(VectorType, VectorKeyFeed(a), hasher) := VectorOutput(image)],
                   KeyOf(VectorType, VectorKeyFeed(b), hasher)) == Some(VectorOutput(image))
  {
    VectorKeyHashIgnoresTree(a, b, hasher);
  }

  /** The `TypeId`s of the two asset kinds. */
  const RasterOrVectorType := TypeId("RasterOrVector")
  const VectorType := TypeId("Vector")

  /** A type-erased cache value (`Box<dyn Any>`); the variant is what `downcast` checks. */
  datatype AnyAsset =
    | RasterOrVectorOutput(output: Result<RasterOrVector, ImageCacheError>)
    | VectorOutput(image: ImageData)

  /** Every entry holds the output type of the kind in its key. */
  ghost predicate WellTyped(assets: map<CacheKey, AnyAsset>)
  {
    forall key :: key in assets ==>
      && (key.0 == RasterOrVectorType ==> assets[key].RasterOrVectorOutput?)
      && (key.0 == VectorType ==> assets[key].VectorOutput?)
  }

  /** A raster image format recognised by `image::guess_format`. */
  datatype ImageFormat = ImageFormat(tag: nat)

  /** The foreign decoders the load uses. */
  datatype Codecs = Codecs(
    utf8Lossy: Bytes -> string,
    /** `image::guess_format` */
    guessFormat: Bytes -> Result<ImageFormat, ImageError>,
    /** `load_from_memory_with_format(..).into_rgba8()` wrapped in `ImageData::new` */
    decode: (Bytes, ImageFormat) -> Result<ImageData, ImageError>,
    /** `usvg::Tree::from_data` */
    parseSvg: Parser)

  /**
   * What `RasterOrVector::load` produces on a cache miss: acquire the bytes; if the
   * format is recognised decode them as a raster, otherwise parse them as SVG and
   * give the tree the hash of the source (`crate::hash`, here `idHash`) as its id.
   * Every failure comes from one stage: acquiring the bytes (passed on unchanged),
   * the raster decode, or the SVG parse.
   */
  function Produce(source: UriOrPath, client: HttpClient, fs: FileSystem, codecs: Codecs,
                   fonts: seq<FontFace>, idHash: Hasher): (r: Result<RasterOrVector, ImageCacheError>)
    ensures var bytes := AcquireBytes(source, client, fs, codecs.utf8Lossy);
            r.Err? ==>
              || (bytes.Err? && r.error == bytes.error)
              || (bytes.Ok? && codecs.guessFormat(bytes.value).Ok? && r.error.Image?)
              || (bytes.Ok? && codecs.guessFormat(bytes.value).Err? && r.error.Usvg?)
    ensures AcquireBytes(source, client, fs, codecs.utf8Lossy).Err? ==> r.Err?
  {
    match AcquireBytes(source, client, fs, codecs.utf8Lossy)
    case Err(e) => Err(e)
    case Ok(bytes) =>
      match codecs.guessFormat(bytes)
      case Ok(format) =>
        (match codecs.decode(bytes, format)
         case Ok(data) => Ok(Raster(data))
         case Err(e) => Err(FromImageError(e)))
      case Err(_) =>
        match codecs.parseSvg(bytes, fonts)
        case Ok(tree) => Ok(Vector(tree, idHash(UriOrPathFeed(source))))
        case Err(e) => Err(FromUsvgError(e))
  }

  /**
   * Raster decoding wins over SVG parsing: once the format is recognised the
   * outcome is the raster decode's, whatever the SVG parser would say.
   */
  lemma RasterTakesPriority(source: UriOrPath, client: HttpClient, fs: FileSystem, codecs: Codecs,
                            fonts: seq<FontFace>, idHash: Hasher)
    requires AcquireBytes(source, client, fs, codecs.utf8Lossy).Ok?
    requires codecs.guessFormat(AcquireBytes(source, client, fs, codecs.utf8Lossy).value).Ok?
    ensures var bytes := AcquireBytes(source, client, fs, codecs.utf8Lossy).value;
            var decoded := codecs.decode(bytes, codecs.guessFormat(bytes).value);
            Produce(source, client, fs, codecs, fonts, idHash)
              == if decoded.Ok? then Ok(Raster(decoded.value)) else Err(Image(decoded.error))
  {
  }

  /**
   * The other direction: bytes whose format is not recognised are parsed as SVG,
   * and the outcome is the parser's — a vector with the parsed tree and the
   * `crate::hash` of the source as its id, or the parser's own error.
   */
  lemma UnrecognisedBytesAreParsedAsSvg(source: UriOrPath, client: HttpClient, fs: FileSystem, codecs: Codecs,
                                        fonts: seq<FontFace>, idHash: Hasher)
    requires AcquireBytes(source, client, fs, codecs.utf8Lossy).Ok?
    requires codecs.guessFormat(AcquireBytes(source, client, fs, codecs.utf8Lossy).value).Err?
    ensures var parsed := codecs.parseSvg(AcquireBytes(source, client, fs, codecs.utf8Lossy).value, fonts);
            Produce(source, client, fs, codecs, fonts, idHash)
              == if parsed.Ok? then Ok(Vector(parsed.value, idHash(UriOrPathFeed(source)))) else Err(Usvg(parsed.error))
  {
  }

  /**
   * A vector result comes only from bytes whose format was not recognised, holds
   * the parsed tree, and has the `crate::hash` of its source as its id.
   */
  lemma VectorIdIsSourceHash(source: UriOrPath, client: HttpClient, fs: FileSystem, codecs: Codecs,
                             fonts: seq<FontFace>, idHash: Hasher)
    requires Produce(source, client, fs, codecs, fonts, idHash).Ok?
    requires Produce(source, client, fs, codecs, fonts, idHash).value.Vector?
    ensures var bytes := AcquireBytes(source, client, fs, codecs.utf8Lossy);
            var r := Produce(source, client, fs, codecs, fonts, idHash).value;
            && bytes.Ok?
            && codecs.guessFormat(bytes.value).Err?
            && codecs.parseSvg(bytes.value, fonts) == Ok(r.tree)
            && r.id == idHash(UriOrPathFeed(source))
  {
  }

  /**
   * `RasterOrVector::load`: a cache hit is returned as it is, with no fetch; on a
   * miss the asset is produced and, when that succeeds, inserted into the cache
   * before it is returned. Failures are returned without being cached. The font
   * database is initialised only to parse an SVG, and the faces it answers with
   * never change.
   */
  method LoadRasterOrVector(source: UriOrPath, cache: AssetCache<AnyAsset>, client: HttpClient,
                            fs: FileSystem, codecs: Codecs, idHash: Hasher, fontdb: FontDbCell,
                            system: seq<FontFace>)
    returns (r: Result<RasterOrVector, ImageCacheError>)
    requires WellTyped(cache.assets) && fontdb.Valid()
    modifies cache`assets, fontdb
    ensures WellTyped(cache.assets) && fontdb.Valid()
    ensures var key := KeyOf(RasterOrVectorType, UriOrPathFeed(source), cache.hasher);
            key in old(cache.assets) ==>
              && r == old(cache.assets)[key].output
              && cache.assets == old(cache.assets)
              && unchanged(fontdb)
    ensures var key := KeyOf(RasterOrVectorType, UriOrPathFeed(source), cache.hasher);
            key !in old(cache.assets) ==>
              && r == Produce(source, client, fs, codecs, old(fontdb.Fonts(system)), idHash)
              && cache.assets == if r.Ok? then old(cache.assets)[key := RasterOrVectorOutput(r)]
                                 else old(cache.assets)
    ensures fontdb.Fonts(system) == old(fontdb.Fonts(system))
    ensures var key := KeyOf(RasterOrVectorType, UriOrPathFeed(source), cache.hasher);
            var bytes := AcquireBytes(source, client, fs, codecs.utf8Lossy);
            (old(fontdb.cell).Some? || key in old(cache.assets) || bytes.Err? || codecs.guessFormat(bytes.value).Ok?)
              ==> unchanged(fontdb)
    ensures var key := KeyOf(RasterOrVectorType, UriOrPathFeed(source), cache.hasher);
            var bytes := AcquireBytes(source, client, fs, codecs.utf8Lossy);
            fontdb.cell.Some? <==>
              old(fontdb.cell).Some? || (key !in old(cache.assets) && bytes.Ok? && codecs.guessFormat(bytes.value).Err?)
  {
    var feed := UriOrPathFeed(source);
    var cached := cache.Get(RasterOrVectorType, feed);
    if cached.Some? && cached.value.RasterOrVectorOutput? {
      return cached.value.output;
    }
    var bytes := AcquireBytes(source, client, fs, codecs.utf8Lossy);
    if bytes.Err? {
      return Err(bytes.error);
    }
    var data;
    var format := codecs.guessFormat(bytes.value);
    if format.Ok? {
      var decoded := codecs.decode(bytes.value, format.value);
      if decoded.Err? {
        return Err(FromImageError(decoded.error));
      }
      data := Raster(decoded.value);
    } else {
      var db := fontdb.SvgFontdb(system);
      var tree := codecs.parseSvg(bytes.value, db.faces);
      if tree.Err? {
        return Err(FromUsvgError(tree.error));
      }
      data := Vector(tree.value, idHash(feed));
    }
    cache.Insert(RasterOrVectorType, feed, RasterOrVectorOutput(Ok(data)));
    r := Ok(data);
  }

  /**
   * What `Vector::load` draws: a pixmap of exactly the key's size, every pixel
   * drawn with one ratio on both axes that maps the tree's width onto the target
   * width.
   */
  function RasterizeVector(key: VectorKey, paint: Painter): (pixmap: Pixmap)
    requires key.size.width > 0 && key.size.height > 0
    ensures var ratio := key.size.width as real / key.data.width;
            && ratio * key.data.width == key.size.width as real
            && pixmap.width == key.size.width && pixmap.height == key.size.height
            && |pixmap.pixels| == pixmap.width * pixmap.height
            && forall i :: 0 <= i < |pixmap.pixels| ==>
                 pixmap.pixels[i] == paint(key.data, Scale(ratio, ratio), Column(i, pixmap.width), Row(i, pixmap.width))
  {
    var blank := NewPixmap(key.size.width, key.size.height).value;
    var ratio := key.size.width as real / key.data.width;
    RenderTree(key.data, Scale(ratio, ratio), blank, paint)
  }

  /**
   * `Vector::load`: a cache hit is returned with no rendering; on a miss the tree
   * is rasterized, normalised through the PNG round trip, inserted and returned.
   */
  method LoadVector(key: VectorKey, cache: AssetCache<AnyAsset>, paint: Painter, normalise: Pixmap -> ImageData)
    returns (image: ImageData)
    requires WellTyped(cache.assets)
    requires key.size.width > 0 && key.size.height > 0
    modifies cache`assets
    ensures WellTyped(cache.assets)
    ensures var k := KeyOf(VectorType, VectorKeyFeed(key), cache.hasher);
            k in old(cache.assets) ==> image == old(cache.assets)[k].image && cache.assets == old(cache.assets)
    ensures var k := KeyOf(VectorType, VectorKeyFeed(key), cache.hasher);
            k !in old(cache.assets) ==>
              && image == normalise(RasterizeVector(key, paint))
              && cache.assets == old(cache.assets)[k := VectorOutput(image)]
  {
    var cached := cache.Get(VectorType, VectorKeyFeed(key));
    if cached.Some? && cached.value.VectorOutput? {
      return cached.value.image;
    }
    var pixmap := RasterizeVector(key, paint);
    image := normalise(pixmap);
    cache.Insert(VectorType, VectorKeyFeed(key), VectorOutput(image));
  }

  // ---------------------------------------------------------------------------
  // Where the element's pixels come from.

  /**
   * The part of the element context `ImageSource::data` uses. `use_asset` answers
   * `None` while an asset is still loading.
   */
  datatype ElementContext = ElementContext(
    useRasterOrVector: UriOrPath -> Option<Result<RasterOrVector, ImageCacheError>>,
    useVector: VectorKey -> Option<ImageData>,
    scaleFactor: real,
    /** `ScaledPixels` into `DevicePixels` */
    toDevicePixels: real -> i32)

  /** The cache key of a URI or file source. */
  function AsUriOrPath(source: ImageSource): UriOrPath
    requires source.Uri? || source.File?
  {
    if source.Uri? then FromUri(source.uri) else FromPath(source.path)
  }

  /** The device-pixel size of `bounds` at the window's scale factor. */
  function ScaledSize(bounds: Bounds, cx: ElementContext): DeviceSize
  {
    DeviceSize(cx.toDevicePixels(bounds.size.width * cx.scaleFactor),
               cx.toDevicePixels(bounds.size.height * cx.scaleFactor))
  }

  /**
   * `ImageSource::data`: decoded data is used as it is, a surface has no image
   * data (it is painted separately), and a URI or file yields pixels only once its
   * asset has loaded successfully.
   */
  function SourceData(source: ImageSource, bounds: Option<Bounds>, cx: ElementContext): (r: Option<ImageData>)
    ensures source.Data? ==> r == Some(source.data)
    ensures source.Surface? ==> r == Option.None
    ensures (source.Uri? || source.File?) && r.Some? ==>
              && cx.useRasterOrVector(AsUriOrPath(source)).Some?
              && cx.useRasterOrVector(AsUriOrPath(source)).value.Ok?
  {
    match source
    case Uri(_) | File(_) =>
      (match cx.useRasterOrVector(AsUriOrPath(source))
       case None => Option.None
       case Some(Err(_)) => Option.None
       case Some(Ok(Raster(data))) => Some(data)
       case Some(Ok(Vector(tree, id))) =>
         if bounds.None? then Option.None
         else cx.useVector(VectorKey(tree, id, ScaledSize(bounds.value, cx))))
    case Data(data) => Some(data)
    case Surface(_) => Option.None
  }

  /**
   * A URI or file source yields pixels only from a successfully loaded asset:
   * while loading and after a failure (which is only logged) there are none, and
   * a vector asset needs the element's bounds to pick the size it is drawn at.
   */
  lemma UriOrFileData(source: ImageSource, bounds: Option<Bounds>, cx: ElementContext)
    requires source.Uri? || source.File?
    ensures var asset := cx.useRasterOrVector(AsUriOrPath(source));
            var r := SourceData(source, bounds, cx);
            && (asset.None? || asset.value.Err? ==> r == Option.None)
            && (r.Some? ==> asset.Some? && asset.value.Ok?)
            && (asset.Some? && asset.value.Ok? && asset.value.value.Raster? ==> r == Some(asset.value.value.data))
            && (asset.Some? && asset.value.Ok? && asset.value.value.Vector? ==>
                  r == if bounds.None? then Option.None
                       else cx.useVector(VectorKey(asset.value.value.tree, asset.value.value.id,
                                                   ScaledSize(bounds.value, cx))))
  {
  }

  /**
   * Bounds only ever add data: whatever the element sees before layout, without
   * bounds, is exactly what it paints once it has bounds.
   */
  lemma BoundsOnlyAddData(source: ImageSource, bounds: Bounds, cx: ElementContext)
    requires SourceData(source, Option.None, cx).Some?
    ensures SourceData(source, Some(bounds), cx) == SourceData(source, Option.None, cx)
  {
  }

  // ---------------------------------------------------------------------------
  // The element.

  datatype AbsoluteLength = Pixels(pixels: real) | Rems(rems: real)

  datatype DefiniteLength = Absolute(length: AbsoluteLength) | Fraction(fraction: real)

  datatype Length = Definite(definite: DefiniteLength) | Auto

  datatype LengthSize = LengthSize(width: Length, height: Length)

  /** A style; everything but its size is kept by identity. */
  datatype Style = Style(size: LengthSize, rest: nat)

  /** The image's own size as a definite style size: `image_size.width.0 as f32` pixels. */
  function NaturalSize(size: DeviceSize): LengthSize
  {
    LengthSize(Definite(Absolute(Pixels(size.width as real))), Definite(Absolute(Pixels(size.height as real))))
  }

  /** A draw call the element makes while painting. */
  datatype PaintCommand =
    | PaintImage(bounds: Bounds, data: ImageData, grayscale: bool)
    | PaintSurface(bounds: Bounds, surface: nat)

  /** An image element. Its builder methods, which consume and return it, become updates in place. */
  class Img {
    var source: ImageSource
    var grayscale: bool
    var objectFit: ObjectFit

    /** `img(source)`: not grayscale, contained. */
    constructor (source: ImageSource)
      ensures this.source == source && !grayscale && objectFit == Contain
    {
      this.source := source;
      grayscale := false;
      objectFit := Contain;
    }

    /** Set the image to be displayed in grayscale; nothing else changes. */
    method SetGrayscale(grayscale: bool)
      modifies this`grayscale
      ensures this.grayscale == grayscale
    {
      this.grayscale := grayscale;
    }

    /** Set the object fit; nothing else changes. */
    method SetObjectFit(fit: ObjectFit)
      modifies this`objectFit
      ensures objectFit == fit
    {
      objectFit := fit;
    }

    /**
     * The style the element asks layout for: when the image's data is already
     * available and neither dimension is set, its natural size; otherwise the
     * style as given. The data is asked for without bounds.
     */
    method BeforeLayout(style: Style, cx: ElementContext) returns (laidOut: Style)
      ensures laidOut.rest == style.rest
      ensures var data := SourceData(source, Option.None, cx);
              if data.Some? && style.size.width.Auto? && style.size.height.Auto?
              then laidOut.size == NaturalSize(data.value.size)
              else laidOut == style
    {
      laidOut := style;
      var data := SourceData(source, Option.None, cx);
      if data.Some? {
        match (style.size.width, style.size.height)
        case (Auto, Auto) =>
          laidOut := style.(size := NaturalSize(data.value.size));
        case _ =>
      }
    }

    /**
     * The draw calls of `paint`: image data is drawn over the whole bounds with
     * the element's grayscale flag; only a surface is placed by the object fit.
     */
    method Paint(bounds: Bounds, cx: ElementContext, surfaceSize: nat -> DeviceSize)
      returns (commands: seq<PaintCommand>)
      requires source.Surface? && (objectFit.Contain? || objectFit.Cover?) ==>
                 Positive(bounds.size) && Positive(ImagePixels(surfaceSize(source.surface)))
      ensures var data := SourceData(source, Some(bounds), cx);
              commands == (if data.Some? then [PaintImage(bounds, data.value, grayscale)] else [])
                          + (if source.Surface?
                             then [PaintSurface(GetBounds(objectFit, bounds, surfaceSize(source.surface)), source.surface)]
                             else [])
      ensures forall c :: c in commands && c.PaintImage? ==> c.bounds == bounds && c.grayscale == grayscale
    {
      commands := [];
      var data := SourceData(source, Some(bounds), cx);
      if data.Some? {
        commands := commands + [PaintImage(bounds, data.value, grayscale)];
      }
      if source.Surface? {
        var placed := GetBounds(objectFit, bounds, surfaceSize(source.surface));
        commands := commands + [PaintSurface(placed, source.surface)];
      }
    }
  }

  /**
   * A vector image gets no natural size: before layout its data is asked for
   * without bounds, so the element keeps the style it was given.
   */
  lemma VectorsKeepTheirStyle(source: ImageSource, cx: ElementContext)
    requires source.Uri? || source.File?
    requires cx.useRasterOrVector(AsUriOrPath(source)).Some?
    requires cx.useRasterOrVector(AsUriOrPath(source)).value.Ok?
    requires cx.useRasterOrVector(AsUriOrPath(source)).value.value.Vector?
    ensures SourceData(source, Option.None, cx) == Option.None
  {
  }
}
