/**
 * The parts of Go's `image.Point` and `image.Rectangle` that the tile renderer uses
 * to lay out its canvas (cmd/serve_heatmap/serve_heatmap.go): a rectangle holds the
 * points with Min.X <= X < Max.X and Min.Y <= Y < Max.Y.
 */
module Geometry {

  datatype Point = Point(x: int, y: int)

  datatype Rectangle = Rectangle(min: Point, max: Point)

  /** Go's integer division, which truncates toward zero. */
  function GoDiv(a: int, b: int): int
    requires b > 0
  {
    if a >= 0 then a / b else -((-a) / b)
  }

  function Max(a: int, b: int): int {
    if a < b then b else a
  }

  function Min(a: int, b: int): int {
    if a > b then b else a
  }

  /** `image.Pt`. */
  function Pt(x: int, y: int): Point {
    Point(x, y)
  }

  /** `image.Rect`: the rectangle with corners (x0, y0) and (x1, y1), put in canonical order. */
  function Rect(x0: int, y0: int, x1: int, y1: int): (r: Rectangle)
    ensures x0 <= x1 && y0 <= y1 ==> r == Rectangle(Point(x0, y0), Point(x1, y1))
  {
    Rectangle(Point(Min(x0, x1), Min(y0, y1)), Point(Max(x0, x1), Max(y0, y1)))
  }

  function Dx(r: Rectangle): int {
    r.max.x - r.min.x
  }

  function Dy(r: Rectangle): int {
    r.max.y - r.min.y
  }

  /** `Rectangle.Add`: the rectangle moved by `p`. */
  function Add(r: Rectangle, p: Point): Rectangle {
    Rectangle(Point(r.min.x + p.x, r.min.y + p.y), Point(r.max.x + p.x, r.max.y + p.y))
  }

  /**
   * `Rectangle.Inset`: every side moved inward by `n` (outward for a negative `n`);
   * a side pair closer than 2n collapses onto its midpoint.
   */
  function Inset(r: Rectangle, n: int): Rectangle {
    var midX, midY := GoDiv(r.min.x + r.max.x, 2), GoDiv(r.min.y + r.max.y, 2);
    Rectangle(
      Point(if Dx(r) < 2 * n then midX else r.min.x + n, if Dy(r) < 2 * n then midY else r.min.y + n),
      Point(if Dx(r) < 2 * n then midX else r.max.x - n, if Dy(r) < 2 * n then midY else r.max.y - n))
  }

  /** `Rectangle.Empty`: the rectangle holds no point. */
  predicate Empty(r: Rectangle) {
    r.min.x >= r.max.x || r.min.y >= r.max.y
  }

  /** `Rectangle.Intersect`: the largest rectangle inside both, or the zero rectangle when they do not overlap. */
  function Intersect(r: Rectangle, s: Rectangle): Rectangle {
    var i := Rectangle(Point(Max(r.min.x, s.min.x), Max(r.min.y, s.min.y)),
                       Point(Min(r.max.x, s.max.x), Min(r.max.y, s.max.y)));
    if Empty(i) then Rectangle(Point(0, 0), Point(0, 0)) else i
  }

  /** `Rectangle.In`: every point of `r` is in `s`. */
  predicate In(r: Rectangle, s: Rectangle) {
    Empty(r) ||
    (s.min.x <= r.min.x && r.max.x <= s.max.x && s.min.y <= r.min.y && r.max.y <= s.max.y)
  }

  /** `Point.In`: `p` is one of the points of `r`. */
  predicate Contains(r: Rectangle, p: Point) {
    r.min.x <= p.x < r.max.x && r.min.y <= p.y < r.max.y
  }
}
