# gpui image and asset pipeline, modelled in Dafny

This project models the image pipeline of the gpui UI framework. It covers four parts:

- **The type-keyed asset cache** (`AssetCache`). It is one map from an asset kind (`TypeId`) and the 64-bit hash of the asset's source to a stored value.
- **The URI/path image cache** (`ImageCache`). It spawns at most one background fetch task per image source. The task reads a file or does an HTTP GET, then decodes the bytes.
- **The SVG mask renderer** (`SvgRenderer`). It renders a named SVG asset at a requested size into a one-byte alpha mask. It parses with a font database that is built once per process (`svg_fontdb`).
- **The image element** (`Img`). This part covers four things:
  - where the element's pixels come from (`ImageSource::data`);
  - the two assets it loads through the asset cache: `RasterOrVector`, a decoded raster or a parsed SVG, and `Vector`, an SVG rasterized at a device size;
  - the natural size it asks layout for;
  - the object-fit geometry it places a surface with.

Files:

- `base.dfy`: option and result types, `u64`, and the hash-token model.
- `platform.dfy`: the collaborators used as opaque capabilities (HTTP client, file system, background executor) and the error types of the foreign libraries.
- `asset_cache.dfy`, `image_cache.dfy`, `svg_renderer.dfy` and `img.dfy`: one module per source file.

How the model represents the source:

- **Hashing.** `DefaultHasher` is a `Hasher`: a function from the tokens a `Hash` impl writes to a `u64`. Each `Hash` impl becomes a "feed" function, which lists the tokens that impl writes. So a hash collision is possible in the model, just as in the program.
- **Caches.** A cache that the source mutates behind a mutex is a class with a `map` field, and its methods carry `modifies` clauses.
- **Spawned tasks.** A spawned task is a `TaskHandle`, the index of the spawn in the executor's log. Clones of a `Shared` task share one handle.
- **The font database.** The process-wide `OnceLock` font database is a `FontDbCell` object, passed explicitly to the code that uses it.

## Model

| member | source | states |
|---|---|---|
| AssetCaching.FromUri | crates/gpui/src/asset_cache.rs:17-21 | A URI converts to the `Uri` variant carrying that URI. |
| AssetCaching.FromPath | crates/gpui/src/asset_cache.rs:23-27 | A path converts to the `Path` variant carrying that path. |
| AssetCaching.UriOrPathFeedInjective | crates/gpui/src/asset_cache.rs:11-15 | The derived hash input of `UriOrPath` is injective: two sources feed the hasher the same tokens iff they are equal. Distinct sources can therefore share a cache slot only through a 64-bit hash collision. |
| AssetCaching.UriOrPathFeed | crates/gpui/src/asset_cache.rs:11-15 | The tokens the derived `Hash` of `UriOrPath` writes: the variant, then its payload. Its property is `UriOrPathFeedInjective`. |
| AssetCaching.AssetCache.constructor | crates/gpui/src/asset_cache.rs:51-56 | A new cache keeps the client it was given and holds no assets. |
| AssetCaching.AssetCache.Get | crates/gpui/src/asset_cache.rs:58-64 | Returns a value iff the map holds the key (kind of the asset, hash of its source), and the value returned is the one stored there: the result is `Lookup` of that key, so the lookup lemmas apply to it. The cache is unchanged. |
| AssetCaching.AssetCache.Insert | crates/gpui/src/asset_cache.rs:66-72 | The map afterwards is the old map with the key (kind, hash of the source) set to the new task. Nothing else changes. |
| AssetCaching.AssetCache.Client | crates/gpui/src/asset_cache.rs:74-77 | Returns the client the cache was built with. |
| AssetCaching.LookupEmpty | crates/gpui/src/asset_cache.rs:51-56 | A new cache answers every lookup with nothing. |
| AssetCaching.LookupAfterInsert | crates/gpui/src/asset_cache.rs:59-71 | After an insert, a lookup of the same kind for any source whose hash is the same answers the inserted task. This includes a different source that collides. |
| AssetCaching.LastWriterWins | crates/gpui/src/asset_cache.rs:67-71 | A second insert under the same key replaces the first and adds no entry. |
| AssetCaching.KindIsolation | crates/gpui/src/asset_cache.rs:63-71 | An insert for one asset kind leaves every lookup for another kind unchanged, even when the sources' hashes are equal. |
| AssetCaching.InsertFrame | crates/gpui/src/asset_cache.rs:67-71 | An insert changes only its own key's entry and adds only that key. |
| Platform.BackgroundExecutor.Spawn | crates/gpui/src/image_cache.rs:94-96 | Spawning appends the job to the executor's log. The handle returned names that spawn. |
| ImageCaching.ErrorConversionsKeepCause | crates/gpui/src/image_cache.rs:35-51 | The `From` conversions into `ImageCacheError` keep the underlying error and tag it with its own variant. |
| ImageCaching.AcquireBytes | crates/gpui/src/image_cache.rs:100-115 | A `Path` source yields the file's contents, and a read failure becomes `Io` of that error. A `Uri` source yields the body of a 2xx response; a GET failure becomes `Client` of that error and a body-read failure `Io` of that error. Acquisition fails only with `Client`, `Io` or `BadStatus`, never a decode error. |
| ImageCaching.FetchImage | crates/gpui/src/image_cache.rs:99-117 | A failure to acquire the bytes is the outcome unchanged, and any other failure is the decoder's `Image` error. Both directions for `BadStatus`, `Ok` and `Image` are in `BadStatusExactly` and `DecodeDecides`. |
| ImageCaching.FetchImageTask | crates/gpui/src/image_cache.rs:119-125 | The `map_err` step only logs: the task yields exactly what the fetch body `FetchImage` yields. |
| ImageCaching.PathIsReadFromDisk | crates/gpui/src/image_cache.rs:100-101 | A `Path` source's outcome does not depend on the HTTP client. A read failure becomes `Io` carrying that error. A successful read's contents are what is decoded: the outcome is the decoded data, or `Image` of the decoder's error. |
| ImageCaching.UriIsFetchedFollowingRedirects | crates/gpui/src/image_cache.rs:102-104 | A `Uri` source's outcome depends only on the client's answer to a GET of that URI with redirect-following on. The disk is never read. |
| ImageCaching.BadStatusExactly | crates/gpui/src/image_cache.rs:103-112 | The fetch fails with `BadStatus` iff the GET and the body read succeed and the status is not 2xx. The error carries that status and the body decoded lossily. |
| ImageCaching.DecodeDecides | crates/gpui/src/image_cache.rs:116 | The fetch succeeds iff the bytes were acquired and decode, and then yields the decoded data. It fails with `Image` iff acquisition succeeded and decoding failed, carrying the decoder's error. |
| ImageCaching.ImageCache.constructor | crates/gpui/src/image_cache.rs:78-84 | A new cache keeps its client and has no entries and no fetches. |
| ImageCaching.ImageCache.Get | crates/gpui/src/image_cache.rs:86-133 | Keeps the cache invariant. On a hit it returns the stored task and spawns nothing. On a miss it spawns exactly one fetch for the source, stores the new task under it and returns it; that task differs from every task already stored. |
| ImageCaching.FetchedAtMostOnce | crates/gpui/src/image_cache.rs:88-131 | Under the invariant `Get` keeps, a cached source was fetched exactly once and any other source never. |
| SvgRendering.FontDatabase.constructor | crates/gpui/src/svg_renderer.rs:85 | A new font database has no faces. |
| SvgRendering.FontDatabase.LoadSystemFonts | crates/gpui/src/svg_renderer.rs:86 | Loading system fonts appends the system's faces. |
| SvgRendering.FontDbCell.constructor | crates/gpui/src/svg_renderer.rs:83 | The cell starts empty, with no initialisation run. |
| SvgRendering.FontDbCell.SvgFontdb | crates/gpui/src/svg_renderer.rs:81-89 | Every call returns the one stored database. The initialiser runs at most once, on the first call: it builds a fresh database holding the system fonts. Later calls change nothing, and every call answers with the same faces. |
| SvgRendering.AsU32 | crates/gpui/src/svg_renderer.rs:66-67 | The `as u32` cast of a float: 0 for values at or below zero, truncation toward zero within the `u32` range, and `u32::MAX` above it. |
| SvgRendering.NewPixmap | crates/gpui/src/svg_renderer.rs:65-69 | A pixmap exists iff both dimensions are positive (sizes too large to allocate are not modelled, see below). It has those dimensions and width×height pixels. |
| SvgRendering.RenderPixmap | crates/gpui/src/svg_renderer.rs:53-78 | As written: a pixmap is produced iff both dimensions `(tree size × ratio) as u32` are positive (otherwise the source's `unwrap` panics), and its height is the tree's height under the ratio. Width and pixels are in `RenderPixmapWidth` and `RenderPixmapUniformScale`. |
| SvgRendering.RenderPixmapUniformScale | crates/gpui/src/svg_renderer.rs:53-78 | When a pixmap is produced: one ratio maps the tree's width onto the requested width; the pixmap is exactly the requested width; its height is the tree's height under that same ratio; every pixel is drawn with `Scale(ratio, ratio)`. |
| SvgRendering.RenderPixmapWidth | crates/gpui/src/svg_renderer.rs:62-66 | A pixmap is produced only for a positive requested width, and it is that wide. |
| SvgRendering.WideTreeEmptyPixmap | crates/gpui/src/svg_renderer.rs:62-69 | Counterexample: a 1000×1 tree at the non-zero size 10×10 passes the zero-size guard but gets a pixmap of height 0, where the source's `unwrap` panics. |
| SvgRendering.AlphaMask | crates/gpui/src/svg_renderer.rs:40-45 | The mask has one byte per pixel, and byte i is the alpha of pixel i. |
| SvgRendering.RenderMask | crates/gpui/src/svg_renderer.rs:29-47 | Corrected `render`: a zero size is refused with `ZeroSize` before anything is loaded, whatever the asset source, parser or fonts; a failed load or parse is the outcome, carrying that error. The panic of `render_pixmap` becomes `EmptyPixmap` (`RenderNeverAborts`). |
| SvgRendering.MaskIsPixmapAlpha | crates/gpui/src/svg_renderer.rs:37-46 | A successful mask has width×height bytes of the rendered pixmap, and byte i is the alpha of pixel i. |
| SvgRendering.RenderNeverAborts | crates/gpui/src/svg_renderer.rs:29-47 | Corrected `render`: the result is `ZeroSize` iff the size is zero, `EmptyPixmap` iff the tree's aspect ratio truncates a dimension to 0, and a successful mask is never empty. |
| SvgRendering.SvgRenderer.constructor | crates/gpui/src/svg_renderer.rs:25-27 | The renderer keeps its asset source. |
| SvgRendering.SvgRenderer.ParseTree | crates/gpui/src/svg_renderer.rs:49-51 | Parses the bytes with the faces of the shared font database. Afterwards the database is initialised; one already initialised is left as it was, and the faces it answers with never change. |
| SvgRendering.SvgRenderer.Render | crates/gpui/src/svg_renderer.rs:29-47 | Corrected `render`: the result is `RenderMask`, the guarded load, parse, render and alpha projection, with `EmptyPixmap` where the source's `unwrap` (line 69) panics. The font database is untouched when it was already initialised, the size is zero or the load fails; it is initialised iff it was already or a parse was reached; the faces it answers with never change. |
| ImageElement.GetBounds | crates/gpui/src/elements/img.rs:110-168 | `Fill` returns the bounds unchanged. `None` returns the image's natural size (`u32` reinterpreted as pixels) at the bounds' origin. `Contain` and `Cover` centre the result: the margins on opposite sides are equal. What the sizes are is in `ContainFitsInside`, `CoverCoversBounds` and `EqualRatiosFillBounds`. |
| ImageElement.ContainFitsInside | crates/gpui/src/elements/img.rs:115-132 | For positive sizes, `Contain`: (1) fits inside the bounds, (2) equals them along at least one axis, (3) keeps the image's aspect ratio. |
| ImageElement.CoverCoversBounds | crates/gpui/src/elements/img.rs:142-153 | For positive sizes, `Cover`: (1) covers the bounds on both axes, (2) equals them along at least one axis, (3) keeps the image's aspect ratio. |
| ImageElement.EqualRatiosFillBounds | crates/gpui/src/elements/img.rs:116-153 | When the ratios are equal, the strict `>` sends both modes to the `else` branch, and both return exactly the bounds. |
| ImageElement.ContainExample | crates/gpui/src/elements/img.rs:121-141 | A 100×100 image contained in a 200×100 box is 100×100 at (50, 0). |
| ImageElement.CoverExample | crates/gpui/src/elements/img.rs:142-162 | A 100×100 image covering a 100×200 box is 200×200 at (-50, 0). |
| ImageElement.VectorKeyHashIgnoresTree | crates/gpui/src/elements/img.rs:390-395 | `VectorKey` hashes only id and size. Two keys feed the hasher the same tokens iff they agree on id and size. Keys that agree there share a cache key whatever their trees. |
| ImageElement.VectorKeysShareEntry | crates/gpui/src/elements/img.rs:390-412 | Once an image is cached for one vector key, a key with the same id and size but another tree is answered with that image. |
| ImageElement.VectorKeyFeed | crates/gpui/src/elements/img.rs:390-395 | The tokens the `Hash` impl of `VectorKey` writes: id, then size, never the tree. Its property is `VectorKeyHashIgnoresTree`. |
| ImageElement.Produce | crates/gpui/src/elements/img.rs:338-370 | A load failure comes from exactly one stage: (1) acquiring the bytes, carrying that error unchanged; (2) the raster decode, an `Image` error; or (3) the SVG parse, a `Usvg` error. A failed acquisition is always a failure. Which decoder decides is in `RasterTakesPriority`, `UnrecognisedBytesAreParsedAsSvg` and `VectorIdIsSourceHash`. |
| ImageElement.RasterTakesPriority | crates/gpui/src/elements/img.rs:354-356 | When the raster format is recognised, the outcome is the raster decode's (the data, or an `Image` error), whatever the SVG parser would say. |
| ImageElement.UnrecognisedBytesAreParsedAsSvg | crates/gpui/src/elements/img.rs:357-369 | When the bytes were acquired and their raster format is not recognised, the outcome is the SVG parser's: a vector holding the parsed tree with the `crate::hash` of the source as its id, or `Usvg` of the parser's own error. |
| ImageElement.VectorIdIsSourceHash | crates/gpui/src/elements/img.rs:357-369 | A vector result comes only from acquired bytes whose raster format was not recognised. It holds the parsed tree, and its id is the `crate::hash` of the source (the `idHash` parameter). |
| ImageElement.LoadRasterOrVector | crates/gpui/src/elements/img.rs:326-376 | A hit returns the cached output, changing neither the cache nor the font database. A miss returns the fetched and decoded result; a success is inserted under its key, and a failure leaves the cache unchanged. Entries stay typed by kind. The font database is touched only to parse an SVG while it is still uninitialised; it is initialised afterwards iff it was already or an SVG parse was reached on a miss; the faces it answers with never change. |
| ImageElement.RasterizeVector | crates/gpui/src/elements/img.rs:414-424 | The rasterized pixmap has exactly the key's size. Every pixel is drawn with one uniform ratio, which maps the tree's width onto the target width. |
| ImageElement.LoadVector | crates/gpui/src/elements/img.rs:403-432 | A hit returns the cached image without rendering. A miss rasterizes the tree, normalises the result, inserts it under the key and returns it. Entries stay typed by kind. |
| ImageElement.SourceData | crates/gpui/src/elements/img.rs:275-310 | Decoded data is used as it is. A surface yields no image data. A URI or file yields data only once its asset has loaded successfully. Details are in `UriOrFileData` and `BoundsOnlyAddData`. |
| ImageElement.UriOrFileData | crates/gpui/src/elements/img.rs:281-303 | A URI or file source yields pixels only from a loaded, successful asset; while loading or after a failure it yields none. A raster yields its data. A vector needs bounds, and then yields the `Vector` asset for its tree and id at the bounds' device size. |
| ImageElement.VectorsKeepTheirStyle | crates/gpui/src/elements/img.rs:190-191 | Before layout a vector asset yields no data, because it is asked for without bounds. |
| ImageElement.BoundsOnlyAddData | crates/gpui/src/elements/img.rs:275-304 | Whatever data a source yields before layout, without bounds, is exactly what it yields at paint time with bounds: bounds can only add data (a vector's). |
| ImageElement.Img.constructor | crates/gpui/src/elements/img.rs:87-94 | `img(source)` holds the source, is not grayscale, and fits with `Contain`. |
| ImageElement.Img.SetGrayscale | crates/gpui/src/elements/img.rs:173-176 | Sets the grayscale flag and changes nothing else. |
| ImageElement.Img.SetObjectFit | crates/gpui/src/elements/img.rs:178-181 | Sets the object fit and changes nothing else. |
| ImageElement.Img.BeforeLayout | crates/gpui/src/elements/img.rs:188-211 | When data is available and both dimensions are `Auto`, the size becomes the image's natural pixel size. Otherwise the style is kept. The rest of the style is never touched. |
| ImageElement.Img.Paint | crates/gpui/src/elements/img.rs:223-251 | Image data, when available, is painted over the whole bounds with the element's grayscale flag. A surface is painted at the object-fit placement of its size. |

## Left out

- **I/O and the foreign libraries are parameters.** This covers the HTTP client, `std::fs::read`, `image::guess_format`, the image decoder and `ImageData::try_from_bytes`. It also covers `usvg::Tree::from_data`, `resvg::render`, the lossy UTF-8 decode and the asset source. The model states how their results are combined, not what they compute.
- **Concurrency is not modelled.** This covers the mutexes, `Shared` futures, `async` bodies, and polling with `use_asset`. A task is a handle. `use_asset` is a function of the element context that answers "still loading" as `None`.
- **`DefaultHasher` and `TypeId` values are given.** The hash function is given to `AssetCache`'s constructor rather than fixed. Kind names are distinct constants.
- ImageElement.LoadRasterOrVector: `crate::hash`, which computes a vector's id, is not part of this model. It is the separate parameter `idHash`, not assumed to equal the cache's hasher.
- **The `remove` method is not part of this model.** It is called by `remove_from_cache` (crates/gpui/src/elements/img.rs:378-380 and 434-436) but is not defined in crates/gpui/src/asset_cache.rs.
- **Other omissions:**
  - `after_layout` and the interactivity, hitbox and corner-radius plumbing of `Img`.
  - The `Styled`, `IntoElement` and `InteractiveElement` impls.
  - The unused `RenderImageParams`.
- **`ImageSource`'s `From` impls** (crates/gpui/src/elements/img.rs:35-76) are its constructors. The second `UriOrPath` declared in crates/gpui/src/image_cache.rs:58-74 is the same datatype as the one in asset_cache.rs.
- **Floating point is modelled as reals.** The geometry and the scale ratio are exact reals instead of `f32`. The `as u32` cast saturates as in Rust, but NaN is not modelled. For that reason `GetBounds` is stated for positive sizes in `Contain` and `Cover` mode. So is `Img.Paint` for a surface placed in those modes.
- **Pixel data:**
  - Trees and decoded images are identities plus sizes.
  - The PNG encode and decode round trip in `Vector::load` is one given `normalise` function, and its `unwrap`s are not modelled.
- **System font loading** is a parameter listing the installed faces.
- **`Size::is_zero`** is not part of this model. It is taken to mean that either dimension is zero.
- **`Img`'s builder methods** (`grayscale`, `object_fit`) consume and return the element. They are modelled as updates in place.
- ImageElement.LoadVector: requires a positive key size. The source's `Pixmap::new(..).unwrap()` panics for a zero dimension, and `ImageSource::data` does not rule that out for an element laid out with zero width or height.
- SvgRendering.NewPixmap: tiny-skia's `Pixmap::new` also refuses a pixmap too large to allocate. The model's pixmap exists for every positive size, so that failure (another `unwrap` panic) is not captured.
- SvgRendering.RenderTree: `resvg::render` is the `Painter` parameter. The in-place render into a `&mut Pixmap` is a function returning the pixmap with every pixel drawn by the painter; what resvg draws is not modelled.
- AssetCaching.UriOrPath: a path is a string. Rust's `PathBuf` compares and hashes by components, so `a//b` and `a/b` are one key in the program but two in the model.
- ImageCaching.ImageCache.Get: the spawned job is recorded as its source. What the job computes is `FetchImageTask` of that source, stated separately.

Three behaviours of the code worth knowing:

- **`RasterOrVector::load` caches only successes.** The `?` operators return before the insert (crates/gpui/src/elements/img.rs:338-374).
- **`CoverExample`.** A 100×100 image covering a 100×200 box lands at (-50, 0): the horizontal overflow is split on both sides.
- **Object fit applies only to surfaces.** Image data is painted over the element's full bounds (crates/gpui/src/elements/img.rs:235-247).

## Findings

| source | as written | input that shows it | evidently intended | confidence | as-written member | corrected member |
|---|---|---|---|---|---|---|
| crates/gpui/src/svg_renderer.rs:62-69 | The pixmap height is `(tree.height * ratio) as u32`, with ratio = requested width / tree width. The result is passed to `Pixmap::new(..).unwrap()`. | A 1000×1 SVG at size 10×10. The size is non-zero, so it passes the guard at line 30. The height truncates to 0, `Pixmap::new` returns `None`, and `unwrap` panics. | `render` should return an error (or produce at least one row) rather than abort for every non-zero size. | medium, not executed | SvgRendering.WideTreeEmptyPixmap | SvgRendering.RenderNeverAborts |
