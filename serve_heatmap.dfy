/**
 * The tile handler of the heatmap server (cmd/serve_heatmap/serve_heatmap.go) with
 * its I/O taken out: the database query, the tile library and the heatmap renderer
 * are given functions, and the response is the description of the PNG tile that
 * would be rendered (the renderer's arguments and the crop rectangle).
 */
module ServeHeatmap {
  import opened Wrappers
  import opened GoTypes
  import opened Geometry
  import opened TileUrl

  /** `maptile.Tile`: column, row and zoom of a tile, each a `uint32`. */
  datatype Tile = Tile(x: uint32, y: uint32, z: uint32)

  /**
   * What `getRaw` asks of the outside world, for features of type F and geographic
   * points of type G: the database query for a tile's padded bounding box
   * (`db.FindInBBox` on `tile.Bound(pad)`), the north-west corner of a tile
   * (`tile.Bound().LeftTop()`), a feature's location (`f.Point()`), and the tile that
   * holds a point at a zoom level (`maptile.At`).
   */
  datatype Backend<!F, !G> = Backend(
    findInBBox: (Tile, real) -> Result<seq<F>, string>,
    leftTop: Tile -> G,
    point: F -> G,
    at: (G, uint32) -> Tile)

  /** Side of an output tile in pixels. */
  const TileSize: int := 256

  /** Radius of a heatmap dot, and so the margin drawn around the tile. */
  const DotRadius: int := 16

  /** Opacity passed to the heatmap renderer. */
  const Opacity: int := 128

  const EmptyTileError: string := "Empty tile"

  /** The padding of the queried bounding box, as a fraction of the tile: the dot radius in pixels. */
  function QueryPad(): (pad: real)
    ensures pad * TileSize as real == DotRadius as real
  {
    16.0 / 256.0
  }

  /** `tile.Z + 8` on the `uint32` zoom: 2^8 = 256 sub-tiles per tile side, one per pixel. */
  function DeeperZoom(z: uint32): (d: uint32)
    ensures z as int < TwoTo32 - 8 ==> d as int == z as int + 8
    ensures z as int >= TwoTo32 - 8 ==> d as int == z as int + 8 - TwoTo32
  {
    ((z as int + 8) % TwoTo32) as uint32
  }

  /**
   * The pixel of a feature whose sub-tile is `t`, relative to the sub-tile `corner` of
   * the tile's north-west corner; the row is flipped so that it counts up from the
   * bottom edge at 256.
   */
  function Offset(t: Tile, corner: Tile): (p: Point)
    ensures t.x as int == corner.x as int + p.x
    ensures t.y as int == corner.y as int + TileSize - p.y
  {
    Point(t.x as int - corner.x as int, TileSize - (t.y as int - corner.y as int))
  }

  /** A feature in the corner's own sub-tile lands on (0, 256). */
  lemma OffsetOfCorner(t: Tile, corner: Tile)
    requires t.x == corner.x && t.y == corner.y
    ensures Offset(t, corner) == Point(0, TileSize)
  {
  }

  /** Two features land on the same pixel exactly when they are in the same sub-tile column and row. */
  lemma OffsetInjective(t1: Tile, t2: Tile, corner: Tile)
    ensures Offset(t1, corner) == Offset(t2, corner) <==> t1.x == t2.x && t1.y == t2.y
  {
  }

  /**
   * A feature within `margin` sub-tiles of the tile lands within `margin` pixels of
   * the output square: columns in [-margin, 256 + margin), rows in (-margin, 256 + margin].
   */
  lemma OffsetWithinMargin(t: Tile, corner: Tile, margin: int)
    requires margin >= 0
    requires corner.x as int - margin <= t.x as int < corner.x as int + TileSize + margin
    requires corner.y as int - margin <= t.y as int < corner.y as int + TileSize + margin
    ensures -margin <= Offset(t, corner).x < TileSize + margin
    ensures -margin < Offset(t, corner).y <= TileSize + margin
  {
  }

  /** The rectangles of `getRaw`: the tile, the renderer's limits and canvas, and the crop. */
  datatype Layout = Layout(imageSize: Rectangle, limits: Rectangle, canvas: Rectangle, crop: Rectangle)

  /**
   * The rectangle arithmetic of `getRaw` for a dot radius r: the limits are the tile
   * grown by r on every side, the canvas is the limits moved to the origin, and the
   * crop is the tile moved by (r, r): a 256 x 256 square inside the canvas with a
   * margin of r on every side.
   */
  function TileLayout(dotRadius: int): (l: Layout)
    requires dotRadius >= 0
    ensures l.imageSize == Rectangle(Point(0, 0), Point(TileSize, TileSize))
    ensures l.limits == Rectangle(Point(-dotRadius, -dotRadius), Point(TileSize + dotRadius, TileSize + dotRadius))
    ensures l.canvas == Rectangle(Point(0, 0), Point(TileSize + 2 * dotRadius, TileSize + 2 * dotRadius))
    ensures l.crop == Rectangle(Point(dotRadius, dotRadius), Point(TileSize + dotRadius, TileSize + dotRadius))
    ensures Dx(l.crop) == TileSize && Dy(l.crop) == TileSize
    ensures In(l.crop, l.canvas) && Intersect(l.crop, l.canvas) == l.crop
    ensures l.crop.min.x - l.canvas.min.x == dotRadius && l.canvas.max.x - l.crop.max.x == dotRadius
    ensures l.crop.min.y - l.canvas.min.y == dotRadius && l.canvas.max.y - l.crop.max.y == dotRadius
  {
    var imageSize := Rect(0, 0, TileSize, TileSize);
    var limits := Inset(imageSize, -dotRadius);
    assert limits == Rectangle(Point(-dotRadius, -dotRadius), Point(TileSize + dotRadius, TileSize + dotRadius));
    Layout(imageSize, limits, Add(limits, Pt(dotRadius, dotRadius)), Add(imageSize, Pt(dotRadius, dotRadius)))
  }

  /**
   * The canvas is the limits shifted by (r, r), and the crop is the tile shifted the
   * same way: a pixel p of the limits is drawn at p + (r, r), and the crop keeps
   * exactly the pixels of the tile.
   */
  lemma {:induction false} CanvasAlignsWithLimits(dotRadius: int, p: Point)
    requires dotRadius >= 0
    ensures Contains(TileLayout(dotRadius).limits, p) <==>
      Contains(TileLayout(dotRadius).canvas, Point(p.x + dotRadius, p.y + dotRadius))
    ensures Contains(TileLayout(dotRadius).imageSize, p) <==>
      Contains(TileLayout(dotRadius).crop, Point(p.x + dotRadius, p.y + dotRadius))
  {
  }

  /** With the server's radius of 16: limits (-16,-16)-(272,272), canvas (0,0)-(288,288), crop (16,16)-(272,272). */
  lemma DefaultLayout()
    ensures TileLayout(DotRadius).limits == Rectangle(Point(-16, -16), Point(272, 272))
    ensures TileLayout(DotRadius).canvas == Rectangle(Point(0, 0), Point(288, 288))
    ensures TileLayout(DotRadius).crop == Rectangle(Point(16, 16), Point(272, 272))
  {
  }

  /** The arguments of the call to the heatmap renderer. */
  datatype HeatmapCall = HeatmapCall(size: Rectangle, points: seq<Point>, limits: Rectangle, dotSize: int, opacity: int)

  /** The body `getRaw` returns: the PNG encoding of the rendered heatmap cut down to `crop`. */
  datatype PngTile = PngTile(heatmap: HeatmapCall, crop: Rectangle)

  /** The pixel of every feature, in feature order. */
  function ProjectedPoints<F, G>(b: Backend<F, G>, features: seq<F>, zoom: uint32, corner: Tile): (points: seq<Point>)
    ensures |points| == |features|
    ensures forall k :: 0 <= k < |features| ==> points[k] == Offset(b.at(b.point(features[k]), zoom), corner)
  {
    seq(|features|, k requires 0 <= k < |features| => Offset(b.at(b.point(features[k]), zoom), corner))
  }

  /** Rendering the points: the heatmap over the margin-grown canvas, cropped back to the tile. */
  function RenderTile(points: seq<Point>): (t: PngTile)
    ensures t.heatmap.points == points
    ensures t.heatmap.size == TileLayout(DotRadius).canvas && t.heatmap.limits == TileLayout(DotRadius).limits
    ensures t.heatmap.dotSize == 2 * DotRadius && t.heatmap.opacity == Opacity && t.crop == TileLayout(DotRadius).crop
  {
    var l := TileLayout(DotRadius);
    PngTile(HeatmapCall(l.canvas, points, l.limits, DotRadius * 2, Opacity), l.crop)
  }

  /**
   * What `getRaw` returns for a tile: the query's error unchanged, "Empty tile" when
   * the query finds nothing, and otherwise the PNG tile rendered from one point per
   * feature, in feature order.
   */
  function RawTile<F, G>(b: Backend<F, G>, tile: Tile): (r: Result<PngTile, string>)
    ensures b.findInBBox(tile, QueryPad()).Failure? ==> r == Failure(b.findInBBox(tile, QueryPad()).error)
    ensures b.findInBBox(tile, QueryPad()) == Success([]) ==> r == Failure(EmptyTileError)
    ensures r.Success? <==> b.findInBBox(tile, QueryPad()).Success? && |b.findInBBox(tile, QueryPad()).value| > 0
    ensures r.Success? ==>
      var features := b.findInBBox(tile, QueryPad()).value;
      var zoom := DeeperZoom(tile.z);
      |r.value.heatmap.points| == |features| &&
      forall k :: 0 <= k < |features| ==>
        r.value.heatmap.points[k] == Offset(b.at(b.point(features[k]), zoom), b.at(b.leftTop(tile), zoom))
    ensures r.Success? ==>
      r.value.heatmap.size == TileLayout(DotRadius).canvas && r.value.heatmap.limits == TileLayout(DotRadius).limits &&
      r.value.heatmap.dotSize == 2 * DotRadius && r.value.heatmap.opacity == Opacity && r.value.crop == TileLayout(DotRadius).crop
  {
    match b.findInBBox(tile, QueryPad())
    case Failure(e) => Failure(e)
    case Success(features) =>
      if |features| == 0 then Failure(EmptyTileError)
      else
        var zoom := DeeperZoom(tile.z);
        var corner := b.at(b.leftTop(tile), zoom);
        Success(RenderTile(ProjectedPoints(b, features, zoom, corner)))
  }

  /** `getRaw`: queries the features, projects them one by one and renders the tile. */
  method GetRaw<F, G>(b: Backend<F, G>, tile: Tile) returns (r: Result<PngTile, string>)
    ensures r == RawTile(b, tile)
  {
    var query := b.findInBBox(tile, QueryPad());
    if query.Failure? {
      return Failure(query.error);
    }
    var features := query.value;
    if |features| == 0 {
      return Failure(EmptyTileError);
    }
    var zoom := DeeperZoom(tile.z);
    var corner := b.at(b.leftTop(tile), zoom);
    var points: seq<Point> := [];
    for i := 0 to |features|
      invariant |points| == i
      invariant forall k :: 0 <= k < i ==> points[k] == Offset(b.at(b.point(features[k]), zoom), corner)
    {
      var t := b.at(b.point(features[i]), zoom);
      points := points + [Offset(t, corner)];
    }
    assert points == ProjectedPoints(b, features, zoom, corner);
    var dotRadius := DotRadius;
    var imageSize := Rect(0, 0, TileSize, TileSize);
    var limits := Inset(imageSize, -dotRadius);
    var heatmap := HeatmapCall(Add(limits, Pt(dotRadius, dotRadius)), points, limits, dotRadius * 2, Opacity);
    r := Success(PngTile(heatmap, Add(imageSize, Pt(dotRadius, dotRadius))));
  }

  /** The HTTP outcome of a tile request: not found, or the tile written back. */
  datatype Response = NotFound | Found(body: PngTile)

  /** `maptile.New(uint32(x), uint32(y), maptile.Zoom(level))`: each value narrowed to 32 bits. */
  function TileOf(req: TileRequest): (t: Tile)
    ensures 0 <= req.x < TwoTo32 ==> t.x as int == req.x
    ensures 0 <= req.y < TwoTo32 ==> t.y as int == req.y
    ensures 0 <= req.level < TwoTo32 ==> t.z as int == req.level
  {
    Tile(ToUint32(req.x), ToUint32(req.y), ToUint32(req.level))
  }

  /**
   * `tilesHandler`: decodes the path and serves the tile `getRaw` renders; a path
   * that does not decode, or a tile whose rendering fails, is not found.
   */
  function TilesHandler<F, G>(b: Backend<F, G>, path: string): (resp: Response)
    ensures DecodeTilePath(path).None? ==> resp == NotFound
    ensures resp.Found? <==>
      DecodeTilePath(path).Some? && RawTile(b, TileOf(DecodeTilePath(path).value)).Success?
    ensures resp.Found? ==> RawTile(b, TileOf(DecodeTilePath(path).value)) == Success(resp.body)
  {
    match DecodeTilePath(path)
    case None => NotFound
    case Some(req) =>
      match RawTile(b, TileOf(req))
      case Failure(_) => NotFound
      case Success(body) => Found(body)
  }

  /** The extension of the path does not change the response: the body is a PNG tile for ".png" and ".jpeg" alike. */
  lemma {:induction false} ExtensionIgnored<F, G>(b: Backend<F, G>, pre: string, m: UrlMatch)
    requires NoNewline(pre) && ValidMatch(m)
    ensures TilesHandler(b, Compose(pre, m.(ext := "png"))) == TilesHandler(b, Compose(pre, m.(ext := "jpeg")))
  {
    var m1, m2 := m.(ext := "png"), m.(ext := "jpeg");
    MatchComposed(pre, m1);
    MatchComposed(pre, m2);
    var d1, d2 := DecodeTilePath(Compose(pre, m1)), DecodeTilePath(Compose(pre, m2));
    assert d1.Some? <==> d2.Some?;
    if d1.Some? {
      assert TileOf(d1.value) == TileOf(d2.value);
    }
  }

  /** A level, x or y too large for an `int` makes the request not found, whatever the backend holds. */
  lemma {:induction false} OverflowNotFound<F, G>(b: Backend<F, G>, pre: string, m: UrlMatch)
    requires NoNewline(pre) && ValidMatch(m)
    requires DecimalValue(m.level) > MaxInt || DecimalValue(m.x) > MaxInt || DecimalValue(m.y) > MaxInt
    ensures TilesHandler(b, Compose(pre, m)) == NotFound
  {
    MatchComposed(pre, m);
  }

  /**
   * A well-formed request is served exactly when its tile renders, with that tile;
   * a tile whose query finds no feature is not found.
   */
  lemma {:induction false} HandlerServesRequestedTile<F, G>(b: Backend<F, G>, pre: string, req: TileRequest)
    requires NoNewline(pre) && ValidExt(req.ext)
    requires 0 <= req.level <= MaxInt && 0 <= req.x <= MaxInt && 0 <= req.y <= MaxInt
    ensures TilesHandler(b, TilePath(pre, req)) ==
      match RawTile(b, TileOf(req))
      case Failure(_) => NotFound
      case Success(body) => Found(body)
    ensures b.findInBBox(TileOf(req), QueryPad()) == Success([]) ==> TilesHandler(b, TilePath(pre, req)) == NotFound
  {
    DecodeTilePathRoundTrip(pre, req);
  }
}
