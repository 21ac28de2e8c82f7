/**
 * The SVG mask renderer: render a named SVG asset at a requested size into a
 * one-byte-per-pixel alpha mask, and the process-wide font database it parses with.
 */
module SvgRendering {
  import opened Base
  import opened Platform

  /** A font face known to the font database. */
  datatype FontFace = FontFace(family: string)

  /** `fontdb::Database`. */
  class FontDatabase {
    var faces: seq<FontFace>

    /** `Database::new()`: no faces. */
    constructor ()
      ensures faces == []
    {
      faces := [];
    }

    /** `load_system_fonts()`: adds the faces installed on the system. */
    method LoadSystemFonts(system: seq<FontFace>)
      modifies this
      ensures faces == old(faces) + system
    {
      faces := faces + system;
    }
  }

  /**
   * The `OnceLock` behind `svg_fontdb()`, passed explicitly instead of living in a
   * static. `initialisations` counts the runs of the initialiser.
   */
  class FontDbCell {
    var cell: Option<FontDatabase>
    ghost var initialisations: nat

    ghost predicate Valid()
      reads this
    {
      initialisations == if cell.Some? then 1 else 0
    }

    constructor ()
      ensures Valid() && cell == None
    {
      cell := None;
      initialisations := 0;
    }

    /** The faces `svg_fontdb()` answers with: the stored database's, or the system's on first use. */
    ghost function Fonts(system: seq<FontFace>): seq<FontFace>
      reads this, if cell.Some? then {cell.value} else {}
    {
      if cell.Some? then cell.value.faces else system
    }

    /**
     * `svg_fontdb()`: the first call builds the database from the system fonts and
     * stores it; every call returns that same database, so it is built at most once.
     */
    method SvgFontdb(system: seq<FontFace>) returns (db: FontDatabase)
      requires Valid()
      modifies this
      ensures Valid() && cell == Some(db) && initialisations <= 1
      ensures db.faces == old(Fonts(system))
      ensures old(cell).Some? ==> db == old(cell).value && unchanged(this)
      ensures old(cell).None? ==> fresh(db)
      ensures Fonts(system) == old(Fonts(system))
    {
      if cell.Some? {
        db := cell.value;
      } else {
        db := new FontDatabase();
        db.LoadSystemFonts(system);
        cell := Some(db);
        initialisations := initialisations + 1;
      }
    }
  }

  type PositiveReal = r: real | r > 0.0 witness 1.0

  /** A parsed `usvg::Tree`; `document` stands for its contents. Its intrinsic size is positive. */
  datatype Tree = Tree(document: nat, width: PositiveReal, height: PositiveReal)

  /** `usvg::Tree::from_data(bytes, options, fontdb)`. */
  type Parser = (Bytes, seq<FontFace>) -> Result<Tree, UsvgError>

  /** A premultiplied RGBA pixel of a `tiny_skia::Pixmap`. */
  datatype Pixel = Pixel(red: bv8, green: bv8, blue: bv8, alpha: bv8)

  const Transparent := Pixel(0, 0, 0, 0)

  /** A `tiny_skia::Pixmap`: `width * height` pixels, row by row. */
  datatype Pixmap = Pixmap(width: nat, height: nat, pixels: seq<Pixel>)

  /** A `tiny_skia::Transform`; only scale transforms are built here. */
  datatype Transform = Scale(sx: real, sy: real)

  /** What `resvg::render` draws at pixel (x, y) of the target for a tree under a transform. */
  type Painter = (Tree, Transform, nat, nat) -> Pixel

  const U32Max: nat := 0xFFFF_FFFF

  /** `as u32` on a finite float: truncation toward zero, saturating at 0 and at `u32::MAX`. */
  function AsU32(x: real): (n: nat)
    ensures n <= U32Max
    ensures x <= 0.0 ==> n == 0
    ensures 0.0 <= x < (U32Max + 1) as real ==> n as real <= x < (n + 1) as real
    ensures x >= (U32Max + 1) as real ==> n == U32Max
  {
    if x <= 0.0 then 0 else if x.Floor > U32Max then U32Max else x.Floor
  }

  /** `Pixmap::new(w, h)`: a transparent pixmap, or `None` when a dimension is zero. */
  function NewPixmap(width: nat, height: nat): (r: Option<Pixmap>)
    ensures r.Some? <==> width > 0 && height > 0
    ensures r.Some? ==> r.value.width == width && r.value.height == height
                        && |r.value.pixels| == width * height
  {
    if width == 0 || height == 0 then None
    else Some(Pixmap(width, height, seq(width * height, _ => Transparent)))
  }

  /** The column of pixel `i` in a row-major pixmap `width` pixels wide. */
  function Column(i: nat, width: nat): nat
    requires width > 0
  {
    i % width
  }

  /** The row of pixel `i` in a row-major pixmap `width` pixels wide. */
  function Row(i: nat, width: nat): nat
    requires width > 0
  {
    i / width
  }

  /** `resvg::render(tree, transform, &mut pixmap)`: every pixel of the pixmap is drawn over. */
  function RenderTree(tree: Tree, transform: Transform, pixmap: Pixmap, paint: Painter): (r: Pixmap)
    requires pixmap.width > 0
    ensures r.width == pixmap.width && r.height == pixmap.height && |r.pixels| == |pixmap.pixels|
    ensures forall i :: 0 <= i < |r.pixels| ==>
              r.pixels[i] == paint(tree, transform, Column(i, pixmap.width), Row(i, pixmap.width))
  {
    pixmap.(pixels := seq(|pixmap.pixels|, i requires 0 <= i < |pixmap.pixels| => paint(tree, transform, Column(i, pixmap.width), Row(i, pixmap.width))))
  }

  /** The scale `render_pixmap` applies: target width over the tree's width. */
  function ScaleRatio(tree: Tree, size: DeviceSize): real
  {
    size.width as real / tree.width
  }

  /**
   * `render_pixmap` as written: the pixmap is `(tree.w * ratio) x (tree.h * ratio)`,
   * truncated to `u32`, drawn with the uniform scale `ratio`. `None` is where the
   * `.unwrap()` on `Pixmap::new` panics.
   */
  function RenderPixmap(tree: Tree, size: DeviceSize, paint: Painter): (r: Option<Pixmap>)
    ensures var ratio := ScaleRatio(tree, size);
            r.Some? <==> AsU32(tree.width * ratio) > 0 && AsU32(tree.height * ratio) > 0
    ensures r.Some? ==> r.value.height == AsU32(tree.height * ScaleRatio(tree, size))
  {
    var ratio := ScaleRatio(tree, size);
    var pixmap := NewPixmap(AsU32(tree.width * ratio), AsU32(tree.height * ratio));
    if pixmap.None? then None
    else Some(RenderTree(tree, Scale(ratio, ratio), pixmap.value, paint))
  }

  /**
   * One uniform ratio, target width over tree width, scales both axes: the pixmap
   * is as wide as requested, its height is the tree's height under the same ratio,
   * and every pixel is drawn with the transform `Scale(ratio, ratio)`.
   */
  lemma RenderPixmapUniformScale(tree: Tree, size: DeviceSize, paint: Painter)
    requires RenderPixmap(tree, size, paint).Some?
    ensures var ratio := ScaleRatio(tree, size);
            var pixmap := RenderPixmap(tree, size, paint).value;
            && ratio * tree.width == size.width as real
            && pixmap.width == size.width
            && pixmap.height == AsU32(tree.height * ratio)
            && |pixmap.pixels| == pixmap.width * pixmap.height
            && forall i :: 0 <= i < |pixmap.pixels| ==>
                 pixmap.pixels[i] == paint(tree, Scale(ratio, ratio), Column(i, pixmap.width), Row(i, pixmap.width))
  {
    RenderPixmapWidth(tree, size, paint);
  }

  /** A pixmap is allocated only for a positive target width, and it is exactly that wide. */
  lemma RenderPixmapWidth(tree: Tree, size: DeviceSize, paint: Painter)
    requires RenderPixmap(tree, size, paint).Some?
    ensures size.width > 0
    ensures ScaleRatio(tree, size) * tree.width == size.width as real
    ensures RenderPixmap(tree, size, paint).value.width == size.width
  {
    var ratio := ScaleRatio(tree, size);
    ScaleRatioRestoresWidth(tree, size);
    assert AsU32(tree.width * ratio) == AsU32(size.width as real);
    AsU32OfPositive(size.width);
  }

  lemma AsU32OfPositive(n: i32)
    requires n > 0
    ensures AsU32(n as real) == n
  {
    assert (n as real).Floor == n;
  }

  lemma ScaleRatioRestoresWidth(tree: Tree, size: DeviceSize)
    ensures ScaleRatio(tree, size) * tree.width == size.width as real
    ensures tree.width * ScaleRatio(tree, size) == size.width as real
  {
  }

  /**
   * The zero-size guard does not keep `render_pixmap` from panicking: a wide tree
   * at a small non-zero size truncates to a pixmap of height 0.
   */
  lemma WideTreeEmptyPixmap(paint: Painter)
    ensures !IsZero(DeviceSize(10, 10))
    ensures RenderPixmap(Tree(0, 1000.0, 1.0), DeviceSize(10, 10), paint) == None
  {
    var tree := Tree(0, 1000.0, 1.0);
    var ratio := ScaleRatio(tree, DeviceSize(10, 10));
    assert ratio == 0.01;
    assert AsU32(tree.height * ratio) == 0;
  }

  /** `Size::is_zero`: either dimension is zero. */
  predicate IsZero(size: DeviceSize)
  {
    size.width == 0 || size.height == 0
  }

  /** `RenderSvgParams`: the asset's name and the target size. */
  datatype RenderSvgParams = RenderSvgParams(path: string, size: DeviceSize)

  /** The `anyhow` error of a load, as the asset source reports it. */
  datatype LoadError = LoadError(reason: nat)

  /** `AssetSource::load`: the bytes of a named asset. */
  datatype AssetSource = AssetSource(load: string -> Result<Bytes, LoadError>)

  /** Why `render` failed. `EmptyPixmap` replaces the panic in `render_pixmap`. */
  datatype RenderError = ZeroSize | Load(load: LoadError) | Parse(parse: UsvgError) | EmptyPixmap

  /** The alpha projection: `pixels().iter().map(|p| p.alpha()).collect()`. */
  function AlphaMask(pixels: seq<Pixel>): (mask: seq<bv8>)
    ensures |mask| == |pixels|
    ensures forall i :: 0 <= i < |pixels| ==> mask[i] == pixels[i].alpha
  {
    if pixels == [] then [] else [pixels[0].alpha] + AlphaMask(pixels[1..])
  }

  /**
   * `SvgRenderer::render`, given the faces `svg_fontdb()` answers with, with the
   * panic of `render_pixmap` turned into `EmptyPixmap`. A zero size is rejected
   * before anything is loaded; a failed load or parse is the outcome.
   */
  function RenderMask(params: RenderSvgParams, assets: AssetSource, parse: Parser, paint: Painter,
                      fonts: seq<FontFace>): (r: Result<seq<bv8>, RenderError>)
    ensures IsZero(params.size) ==> r == Err(ZeroSize)
    ensures !IsZero(params.size) && assets.load(params.path).Err? ==>
              r == Err(Load(assets.load(params.path).error))
    ensures !IsZero(params.size) && assets.load(params.path).Ok? && parse(assets.load(params.path).value, fonts).Err? ==>
              r == Err(Parse(parse(assets.load(params.path).value, fonts).error))
  {
    if IsZero(params.size) then Err(ZeroSize)
    else
      match assets.load(params.path)
      case Err(e) => Err(Load(e))
      case Ok(bytes) =>
        match parse(bytes, fonts)
        case Err(e) => Err(Parse(e))
        case Ok(tree) =>
          match RenderPixmap(tree, params.size, paint)
          case None => Err(EmptyPixmap)
          case Some(pixmap) => Ok(AlphaMask(pixmap.pixels))
  }

  /**
   * On success the mask has exactly one byte per pixel of the rendered pixmap, and
   * byte i is the alpha of pixel i.
   */
  lemma MaskIsPixmapAlpha(params: RenderSvgParams, assets: AssetSource, parse: Parser,
                          paint: Painter, fonts: seq<FontFace>)
    requires RenderMask(params, assets, parse, paint, fonts).Ok?
    ensures var mask := RenderMask(params, assets, parse, paint, fonts).value;
            var tree := parse(assets.load(params.path).value, fonts).value;
            var pixmap := RenderPixmap(tree, params.size, paint).value;
            && |mask| == pixmap.width * pixmap.height
            && forall i :: 0 <= i < |mask| ==> mask[i] == pixmap.pixels[i].alpha
  {
    var tree := parse(assets.load(params.path).value, fonts).value;
    RenderPixmapUniformScale(tree, params.size, paint);
  }

  /**
   * Every request ends in a mask or an error value, never an abort: the zero-size
   * error exactly for a zero size, `EmptyPixmap` exactly when the pixmap the tree's
   * aspect ratio calls for is empty, and a successful mask is never empty.
   */
  lemma RenderNeverAborts(params: RenderSvgParams, assets: AssetSource, parse: Parser,
                          paint: Painter, fonts: seq<FontFace>)
    ensures var r := RenderMask(params, assets, parse, paint, fonts);
            && (r == Err(ZeroSize) <==> IsZero(params.size))
            && (r.Ok? ==> |r.value| >= 1)
            && (r == Err(EmptyPixmap) <==>
                  && !IsZero(params.size)
                  && assets.load(params.path).Ok?
                  && parse(assets.load(params.path).value, fonts).Ok?
                  && var tree := parse(assets.load(params.path).value, fonts).value;
                     var ratio := ScaleRatio(tree, params.size);
                     AsU32(tree.width * ratio) == 0 || AsU32(tree.height * ratio) == 0)
  {
    var r := RenderMask(params, assets, parse, paint, fonts);
    if r.Ok? {
      MaskIsPixmapAlpha(params, assets, parse, paint, fonts);
    }
  }

  /** `SvgRenderer`: renders the assets of one asset source. */
  class SvgRenderer {
    const assetSource: AssetSource

    constructor (assetSource: AssetSource)
      ensures this.assetSource == assetSource
    {
      this.assetSource := assetSource;
    }

    /**
     * `tree(bytes)`: parses with the shared font database, which is initialised
     * afterwards; an already initialised database is left as it was.
     */
    method ParseTree(bytes: Bytes, parse: Parser, fontdb: FontDbCell, system: seq<FontFace>)
      returns (r: Result<Tree, UsvgError>)
      requires fontdb.Valid()
      modifies fontdb
      ensures fontdb.Valid() && fontdb.cell.Some?
      ensures r == parse(bytes, old(fontdb.Fonts(system)))
      ensures fontdb.Fonts(system) == old(fontdb.Fonts(system))
      ensures old(fontdb.cell).Some? ==> unchanged(fontdb)
    {
      var db := fontdb.SvgFontdb(system);
      r := parse(bytes, db.faces);
    }

    /**
     * `render(params)`, corrected: the guard, the load, the parse, the pixmap (an
     * empty one is the error `EmptyPixmap`) and the alpha projection, in that order.
     * The font database is initialised only when a tree is parsed with it, and the
     * faces it answers with never change.
     */
    method Render(params: RenderSvgParams, parse: Parser, paint: Painter, fontdb: FontDbCell,
                  system: seq<FontFace>) returns (r: Result<seq<bv8>, RenderError>)
      requires fontdb.Valid()
      modifies fontdb
      ensures fontdb.Valid()
      ensures r == RenderMask(params, assetSource, parse, paint, old(fontdb.Fonts(system)))
      ensures fontdb.Fonts(system) == old(fontdb.Fonts(system))
      ensures old(fontdb.cell).Some? || IsZero(params.size) || assetSource.load(params.path).Err? ==> unchanged(fontdb)
      ensures fontdb.cell.Some? <==>
                old(fontdb.cell).Some? || (!IsZero(params.size) && assetSource.load(params.path).Ok?)
    {
      if IsZero(params.size) {
        return Err(ZeroSize);
      }
      var bytes := assetSource.load(params.path);
      if bytes.Err? {
        return Err(Load(bytes.error));
      }
      var tree := ParseTree(bytes.value, parse, fontdb, system);
      if tree.Err? {
        return Err(Parse(tree.error));
      }
      var pixmap := RenderPixmap(tree.value, params.size, paint);
      if pixmap.None? {
        return Err(EmptyPixmap);
      }
      r := Ok(AlphaMask(pixmap.value.pixels));
    }
  }
}
