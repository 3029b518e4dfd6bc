# mongosm heatmap tiles: a Dafny model

This project models the core of mongosm's heatmap tile server: the slippy-map
tile addressing along the longitude axis and the image-format dispatch of the
`mongosm` package (`raster.go`), and the request pipeline of the tile server
(`cmd/serve_heatmap/serve_heatmap.go`) with its I/O taken out. A request path
`/<anything>/<z>/<x>/<y>.png` (or `.jpeg`) is matched and decoded into a zoom
level and tile coordinates. The features the database returns for the tile's
padded bounding box are projected eight zoom levels deeper, which gives one
sub-tile per output pixel. They become pixel offsets from the tile's north-west
corner. The points are handed to the heatmap renderer on a canvas that has a
16-pixel margin on every side, and the result is cropped back to the 256 x 256
tile and PNG-encoded.

Modules:

- `Wrappers` (`wrappers.dfy`): `Option` and `Result`. They stand for Go's `nil`
  results and `error` returns.
- `GoTypes` (`go_types.dfy`): Go's 64-bit `int`, `uint32` and `byte`, and the
  `uint32(v)` conversion.
- `Raster` (`raster.go`): `n(level)` as Go's 64-bit `1 << uint(level)`.
  `X2Lon` and `Lon2X` over exact reals, with `int()` as truncation toward zero.
  `Encode` dispatches to two opaque encoders.
- `TileUrl` (`serve_heatmap.go:53-83`): the anchored pattern
  `\A/.*/(\d+)/(\d+)/(\d+)\.(png|jpeg)\z`, written as a parser that works back from
  the end of the path. Then the decoding of the three digit groups,
  modelled as a digit loop with the same outcome as `strconv.Atoi`: it fails
  exactly when the value exceeds the largest `int`.
- `Geometry`: the Go `image.Point` and `image.Rectangle` operations that the
  layout in `getRaw` uses: `Pt`, `Rect`, `Inset` and `Add`, plus `Intersect`,
  which `SubImage` applies to the image bounds. `In` and `Contains` are used
  only to state containment. These operations come from Go's standard
  library. The model follows their documented definitions.
- `ServeHeatmap` (`serve_heatmap.go:55-141`): `getRaw` has a specification
  function, `RawTile`, and a method with the projection loop, `GetRaw`.
  `tilesHandler` is the function `TilesHandler`. External calls are fields of
  a `Backend` value: `db.FindInBBox` on `tile.Bound(pad)`,
  `tile.Bound().LeftTop()`, `f.Point()` and `maptile.At`. The heatmap renderer
  and `png.Encode` are opaque. A served tile is therefore the value `PngTile`:
  the exact arguments passed to the renderer plus the crop rectangle.

Three consequences of the code worth knowing:

- `Lon2X` converts with `int()`, which truncates. So the band one column width
  west of -180° maps to column 0 (`Raster.Lon2XZeroBand`).
- The row is `256 - dy`. So a feature in the corner's own Z+8 sub-tile lands
  on (0, 256) (`ServeHeatmap.OffsetOfCorner`).
- The captured extension is never read, and the body is always PNG
  (`ServeHeatmap.ExtensionIgnored`).

## Model

| member | source | states |
|---|---|---|
| `Raster.N` | raster.go:12-15 | n(level) is 2^level for 0 <= level < 63. It is positive exactly there. At 63 the shift lands on the sign bit (-2^63). For a negative level or one above 63 it is 0. |
| `Raster.NDoubles` | raster.go:12-15 | One level deeper doubles the tile count. |
| `Raster.Trunc` | raster.go:24 | Go's `int()` of a float keeps the integer part, rounding toward zero on both sides of 0. |
| `Raster.X2Lon` | raster.go:17-20 | The west edge of column x: x / n(level) · 360 − 180 over exact reals, for 0 <= level <= 63. Column 0 starts at -180°, and on levels 0..62 a column starts at or east of -180° exactly when x >= 0. Its other properties are in `X2LonSpansWorld`, `X2LonStrictlyIncreasing`, `Lon2XOfX2Lon` and `X2LonOfLon2X`. |
| `Raster.Lon2X` | raster.go:22-25 | The column of a longitude: the truncation of n(level) · (lon + 180) / 360, for every level. It is 0 below level 0 and above 63, and never negative east of -180° on levels 0..62. Its other properties are in `Lon2XInRange`, `Lon2XMonotone`, `Lon2XZeroBand` and `Lon2XOutsideLevels`. |
| `Raster.X2LonCompare` | raster.go:17-25 | Column x starts at or before (strictly before) a longitude exactly when x is at most (strictly below) that longitude measured in column widths from -180°, the quantity `Lon2X` truncates. |
| `Raster.X2LonSpansWorld` | raster.go:17-20 | X2Lon(level, 0) = -180 and X2Lon(level, n(level)) = 180. |
| `Raster.X2LonStrictlyIncreasing` | raster.go:17-20 | X2Lon is strictly increasing in x. |
| `Raster.Lon2XOutsideLevels` | raster.go:12-25 | Below level 0 or above 63, n(level) is 0, so `Lon2X` is 0 for every longitude. |
| `Raster.Lon2XAtWestEdge` | raster.go:22-25 | Lon2X(level, -180) = 0. |
| `Raster.Lon2XInRange` | raster.go:22-25 | Every longitude in [-180, 180) maps to a column in [0, n(level)). |
| `Raster.Lon2XMonotone` | raster.go:22-25 | Lon2X never decreases as the longitude grows. |
| `Raster.Lon2XOfX2Lon` | raster.go:17-25 | Lon2X(level, X2Lon(level, x)) = x for every integer column x, in exact arithmetic. |
| `Raster.X2LonOfLon2X` | raster.go:17-25 | For lon >= -180, X2Lon(Lon2X(lon)) <= lon < X2Lon(Lon2X(lon) + 1). The round trip recovers the column's west edge. |
| `Raster.Lon2XZeroBand` | raster.go:22-25 | Lon2X is 0 exactly on (X2Lon(-1), X2Lon(1)). Because of the truncation, longitudes up to one column width below -180 still map to column 0. |
| `Raster.X2LonDeeper` | raster.go:17-20 | Column x starts where column 256x starts eight levels deeper. |
| `Raster.OversampledColumn` | raster.go:17-25 | Eight levels deeper, the west edge of column x is column 256x. Every longitude of column x falls in columns 256x to 256x + 255. This is a fact about raster.go's own numbering that mirrors the comment at serve_heatmap.go:114. `getRaw` calls the tile library's `maptile.At` instead, and the model's `Backend.at` is not tied to it. |
| `Raster.UnsupportedFormatError` | raster.go:57-58 | The unsupported-format message holds the format verbatim, at a fixed offset. |
| `Raster.UnsupportedFormatErrorInjective` | raster.go:57-58 | Distinct rejected formats give distinct messages, so the message names its format exactly. |
| `Raster.Encode` | raster.go:43-62 | "jpg" returns the JPEG encoder's outcome and "png" the PNG encoder's. An encoder error is passed on unchanged, with no bytes. Any other format is an error naming that format. |
| `Raster.EncodeSuccess` | raster.go:44-61 | Encode succeeds exactly when the format is "jpg" and the JPEG encoder succeeds, or the format is "png" and the PNG encoder succeeds. |
| `Raster.EncodeUsesOneEncoder` | raster.go:47-56 | Each supported format consults only its own encoder. Replacing the other encoder leaves the result unchanged. |
| `TileUrl.MatchTileUrl` | cmd/serve_heatmap/serve_heatmap.go:53-62 | Every group the matcher returns is one the pattern can capture: three digit runs and "png" or "jpeg". |
| `TileUrl.MatchComposed` | cmd/serve_heatmap/serve_heatmap.go:53-62 | Take a path "/" + pre + "/" + level + "/" + x + "/" + y + "." + ext, where pre has no line feed, the groups are digit runs and ext is png or jpeg. It is matched, with exactly those groups. |
| `TileUrl.MatchSound` | cmd/serve_heatmap/serve_heatmap.go:53 | Every matched path has that shape for some newline-free pre. |
| `TileUrl.MatchTileUrlSpec` | cmd/serve_heatmap/serve_heatmap.go:53-62 | The matcher returns m exactly when the path is the pattern instantiated with m. Every other path is rejected. The groups are uniquely determined by the path. |
| `TileUrl.ParseDigitsValue` | cmd/serve_heatmap/serve_heatmap.go:65-83 | A left-to-right digit loop, with the same outcome as `strconv.Atoi`, yields the decimal value. It fails exactly when that value exceeds the largest `int`. |
| `TileUrl.Atoi` | cmd/serve_heatmap/serve_heatmap.go:65-83 | On a digit group, `Atoi` fails only on `int` overflow. Otherwise it returns the group's decimal value, leading zeros allowed. |
| `TileUrl.DecodeTilePath` | cmd/serve_heatmap/serve_heatmap.go:57-83 | A path decodes exactly when it matches and all three groups fit in an `int`. Level, x and y are then the decimal values of the three groups. |
| `TileUrl.DecodeTilePathRoundTrip` | cmd/serve_heatmap/serve_heatmap.go:53-83 | Building the path of any request with level, x, y in [0, MaxInt] and decoding it gives the request back. |
| `GoTypes.ToUint32` | cmd/serve_heatmap/serve_heatmap.go:85 | `uint32(v)` keeps v when it fits, and otherwise agrees with v modulo 2^32. |
| `ServeHeatmap.TileOf` | cmd/serve_heatmap/serve_heatmap.go:85 | The tile gets the decoded x, y and level whenever they fit in 32 bits. |
| `ServeHeatmap.QueryPad` | cmd/serve_heatmap/serve_heatmap.go:103 | The query pads the bounding box by 16/256 of a tile. That is the dot radius in pixels, so the queried border matches the render margin. |
| `ServeHeatmap.DeeperZoom` | cmd/serve_heatmap/serve_heatmap.go:115 | `tile.Z + 8` on the `uint32` zoom, wrapping modulo 2^32. |
| `ServeHeatmap.Offset` | cmd/serve_heatmap/serve_heatmap.go:121-124 | The pixel (t.x − corner.x, 256 − (t.y − corner.y)) of a feature in sub-tile t. The sub-tile can be recovered from the pixel and the corner. Its other properties are in `OffsetOfCorner`, `OffsetInjective` and `OffsetWithinMargin`. |
| `ServeHeatmap.OffsetOfCorner` | cmd/serve_heatmap/serve_heatmap.go:115-124 | A feature in the corner's own sub-tile maps to (0, 256). |
| `ServeHeatmap.OffsetInjective` | cmd/serve_heatmap/serve_heatmap.go:121-124 | Two features get the same point exactly when their sub-tiles share column and row. |
| `ServeHeatmap.OffsetWithinMargin` | cmd/serve_heatmap/serve_heatmap.go:117-125 | A feature within m sub-tiles of the tile gets a column in [-m, 256 + m) and a row in (-m, 256 + m]. |
| `ServeHeatmap.TileLayout` | cmd/serve_heatmap/serve_heatmap.go:127-133 | For a dot radius r, the limits are the tile grown by r and the canvas is (0,0)-(256+2r, 256+2r). The crop is (r,r)-(256+r, 256+r): exactly 256 x 256, inside the canvas, equal to its intersection with the canvas, with an r-pixel margin on every side. |
| `ServeHeatmap.CanvasAlignsWithLimits` | cmd/serve_heatmap/serve_heatmap.go:127-133 | A pixel p is in the limits exactly when p + (r, r) is in the canvas. It is in the tile exactly when p + (r, r) is in the crop. |
| `ServeHeatmap.DefaultLayout` | cmd/serve_heatmap/serve_heatmap.go:127-133 | With r = 16: limits (-16,-16)-(272,272), canvas (0,0)-(288,288), crop (16,16)-(272,272). |
| `ServeHeatmap.ProjectedPoints` | cmd/serve_heatmap/serve_heatmap.go:117-125 | One point per feature, in feature order: point k is the offset of feature k's Z+8 sub-tile from the corner's. |
| `ServeHeatmap.RenderTile` | cmd/serve_heatmap/serve_heatmap.go:127-140 | The renderer gets the points unchanged, the canvas as size, the limits, dot size 2r and opacity 128. The tile is cut to the crop. |
| `ServeHeatmap.RawTile` | cmd/serve_heatmap/serve_heatmap.go:102-141 | A query error is returned unchanged. An empty feature list gives "Empty tile" and nothing is rendered. Otherwise a PNG tile is rendered with exactly one point per feature, in feature order, each the offset of its Z+8 sub-tile from the corner's Z+8 sub-tile. The layout is fixed. |
| `ServeHeatmap.GetRaw` | cmd/serve_heatmap/serve_heatmap.go:102-141 | The loop that appends one point per feature computes what `RawTile` specifies. |
| `ServeHeatmap.TilesHandler` | cmd/serve_heatmap/serve_heatmap.go:55-96 | A path that does not decode is not found. A decoded path is served exactly when its tile renders, and the body is that tile. |
| `ServeHeatmap.ExtensionIgnored` | cmd/serve_heatmap/serve_heatmap.go:53-96 | The ".png" and ".jpeg" forms of a path get the same response, which is always the PNG tile. |
| `ServeHeatmap.OverflowNotFound` | cmd/serve_heatmap/serve_heatmap.go:65-83 | A matched path whose level, x or y overflows `int` is not found, whatever the backend holds. Nothing is rendered. |
| `ServeHeatmap.HandlerServesRequestedTile` | cmd/serve_heatmap/serve_heatmap.go:85-96 | The path of any int-range request is served exactly when that request's tile renders. If the query finds no feature, the path is not found. |

## Left out

- `Y2Lat` and `Lat2Y` (raster.go:27-41): they are built on float64 `Atan`, `Sinh`, `Log`, `Tan` and `Cos`, which have no exact model.
- Float64 rounding in `X2Lon` and `Lon2X`: the model computes in exact reals. The properties hold of the formulas, not bit for bit of float64.
- `Raster.X2Lon`: requires 0 <= level <= 63. Outside that range n(level) is 0, and raster.go:19 divides by 0.0, which gives an infinity or NaN. `Lon2X` has no such requirement: it multiplies by n(level) and is 0 there.
- `Raster.Lon2X`: returns an unbounded integer. Go's `int()` of a float outside the 64-bit range depends on the implementation.
- The bytes that `jpeg.Encode` and `png.Encode` produce: these are library encoders. They are opaque functions in `Raster.Encode`, and the served tile is the description `PngTile`.
- The heatmap renderer (`heatmap.Heatmap`) and the `schemes.PBJ` palette are not part of this model. The model records the arguments they receive. That the rendered image spans its size rectangle, and so the crop lies inside it, is an assumption about that package.
- `maptile.At`, `tile.Bound`, `LeftTop`, `f.Point()` and `db.FindInBBox` are external libraries and a database. They are fields of `ServeHeatmap.Backend`, with no contract, so `Backend.at` is not tied to `Raster.Lon2X`. How the padded bounding box is computed is not modelled.
- `maptile.New` is modelled only as the constructor call in `ServeHeatmap.TileOf`, which narrows its three arguments to 32 bits.
- `log.Print`, `log.Println` and `log.Fatal` on a PNG encoding failure (serve_heatmap.go:136-138): logging, and a process exit on an error that the opaque encoder model never yields.
- `main`, `http.ListenAndServe`, the environment variables, `w.Write`, `http.NotFound`'s response bytes and `pageHandler` with its embedded template (serve_heatmap.go:24-51, 95, 143-161): these are I/O. Concurrent handler execution is left out too.
- The `len(m) != 5` test (serve_heatmap.go:58): a successful match always has five entries, so only the `m == nil` case matters.
- `DisplayTrace` (headers.go): it only writes a request header to a writer.

