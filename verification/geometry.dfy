/**
 * Points, four-corner shapes, the image rectangle and axis-aligned boxes:
 * the value types every editing operation of the canvas works on.
 * Coordinates are exact reals, so halving an extent loses nothing.
 */
module Geometry {

  datatype Point = Point(x: real, y: real)

  const Origin := Point(0.0, 0.0)

  function Add(p: Point, d: Point): Point { Point(p.x + d.x, p.y + d.y) }

  function Sub(p: Point, q: Point): Point { Point(p.x - q.x, p.y - q.y) }

  /** Truthiness of a Qt point: a point is null (false) when both coordinates are zero. */
  predicate IsNull(p: Point) { p.x == 0.0 && p.y == 0.0 }

  /** The four corners of a shape, nominally top-left, top-right, bottom-right, bottom-left. */
  type Quad = q: seq<Point> | |q| == 4 witness [Origin, Origin, Origin, Origin]

  /**
   * One annotation. Line and fill colours are display attributes that the
   * editor recomputes from the label, so they are not part of the model.
   * `name` is the annotation label (`label` is a Dafny keyword);
   * `visible` is the check state of the shape's row in the label list.
   */
  datatype Shape = Shape(name: string, points: Quad, difficult: bool, visible: bool)

  /** The pixel size of the loaded image. */
  datatype Image = Image(width: nat, height: nat) {
    function W(): real { width as real }
    function H(): real { height as real }
  }

  function Min(a: real, b: real): real { if a <= b then a else b }

  function Max(a: real, b: real): real { if a >= b then a else b }

  /** `min`/`max` over the four x (or y) coordinates of a shape. */
  function MinX(q: Quad): real { Min(Min(Min(q[0].x, q[1].x), q[2].x), q[3].x) }
  function MaxX(q: Quad): real { Max(Max(Max(q[0].x, q[1].x), q[2].x), q[3].x) }
  function MinY(q: Quad): real { Min(Min(Min(q[0].y, q[1].y), q[2].y), q[3].y) }
  function MaxY(q: Quad): real { Max(Max(Max(q[0].y, q[1].y), q[2].y), q[3].y) }

  /** An axis-aligned box given by its minimum corner (x0, y0) and maximum corner (x1, y1). */
  datatype Box = Box(x0: real, y0: real, x1: real, y1: real)

  predicate Ordered(b: Box) { b.x0 <= b.x1 && b.y0 <= b.y1 }

  /** The bounding box of a shape (the editor's `minmaxShapepoint`). */
  function BBox(q: Quad): (b: Box)
    ensures Ordered(b)
    ensures forall i | 0 <= i < 4 :: b.x0 <= q[i].x <= b.x1 && b.y0 <= q[i].y <= b.y1
  {
    Box(MinX(q), MinY(q), MaxX(q), MaxY(q))
  }

  /** Each side of the bounding box is attained by some corner: the box is the least one holding the shape. */
  lemma BBoxAttained(q: Quad)
    ensures var b := BBox(q);
      && (exists i | 0 <= i < 4 :: q[i].x == b.x0)
      && (exists i | 0 <= i < 4 :: q[i].x == b.x1)
      && (exists i | 0 <= i < 4 :: q[i].y == b.y0)
      && (exists i | 0 <= i < 4 :: q[i].y == b.y1)
  {
    var b := BBox(q);
    assert b.x0 == q[0].x || b.x0 == q[1].x || b.x0 == q[2].x || b.x0 == q[3].x;
    assert b.x1 == q[0].x || b.x1 == q[1].x || b.x1 == q[2].x || b.x1 == q[3].x;
    assert b.y0 == q[0].y || b.y0 == q[1].y || b.y0 == q[2].y || b.y0 == q[3].y;
    assert b.y1 == q[0].y || b.y1 == q[1].y || b.y1 == q[2].y || b.y1 == q[3].y;
  }

  /** The corners of a box in the editor's clockwise order starting at the top-left. */
  function Corners(b: Box): Quad {
    [Point(b.x0, b.y0), Point(b.x1, b.y0), Point(b.x1, b.y1), Point(b.x0, b.y1)]
  }

  /** A box built by the editor as `QPointF(min…)`, …: the clockwise corners of an ordered box. */
  predicate IsNormalRect(q: Quad) { q == Corners(BBox(q)) }

  /** Axis-aligned in the clockwise labelling: consecutive corners share a coordinate. */
  predicate IsAxisRect(q: Quad) {
    q[0].y == q[1].y && q[1].x == q[2].x && q[2].y == q[3].y && q[3].x == q[0].x
  }

  predicate InBox(p: Point, b: Box) { b.x0 <= p.x <= b.x1 && b.y0 <= p.y <= b.y1 }

  predicate StrictlyInBox(p: Point, b: Box) { b.x0 < p.x < b.x1 && b.y0 < p.y < b.y1 }

  function ImageBox(img: Image): Box { Box(0.0, 0.0, img.W(), img.H()) }

  predicate InImage(p: Point, img: Image) { InBox(p, ImageBox(img)) }

  predicate BoxInImage(b: Box, img: Image) { 0.0 <= b.x0 && b.x1 <= img.W() && 0.0 <= b.y0 && b.y1 <= img.H() }

  predicate QuadInImage(q: Quad, img: Image) { forall i | 0 <= i < 4 :: InImage(q[i], img) }

  predicate ShapesInImage(shapes: seq<Shape>, img: Image) {
    forall k | 0 <= k < |shapes| :: QuadInImage(shapes[k].points, img)
  }

  /** Bounding-box containment, the model's reading of a shape's hit test. */
  predicate ContainsPoint(s: Shape, p: Point) { InBox(p, BBox(s.points)) }

  /** `moveBy`: add the same delta to every corner. */
  function Translate(q: Quad, d: Point): (r: Quad)
    ensures forall i | 0 <= i < 4 :: r[i] == Add(q[i], d)
  {
    [Add(q[0], d), Add(q[1], d), Add(q[2], d), Add(q[3], d)]
  }

  function Width(q: Quad): real { MaxX(q) - MinX(q) }

  function Height(q: Quad): real { MaxY(q) - MinY(q) }

  /** The editor's `xcenter`, `ycenter`, `xdiff` (half width) and `ydiff` (half height). */
  function XCenter(q: Quad): real { (MinX(q) + MaxX(q)) / 2.0 }
  function YCenter(q: Quad): real { (MinY(q) + MaxY(q)) / 2.0 }
  function XDiff(q: Quad): real { XCenter(q) - MinX(q) }
  function YDiff(q: Quad): real { YCenter(q) - MinY(q) }

  /** The clockwise rectangle of half extents (hx, hy) centred on (cx, cy). */
  function Around(cx: real, cy: real, hx: real, hy: real): Quad {
    Corners(Box(cx - hx, cy - hy, cx + hx, cy + hy))
  }

  // ---------------------------------------------------------------------------
  // Facts about the definitions above
  // ---------------------------------------------------------------------------

  /** Centre and half extents recover the bounding box exactly. */
  lemma HalfExtents(q: Quad)
    ensures XCenter(q) - XDiff(q) == MinX(q) && XCenter(q) + XDiff(q) == MaxX(q)
    ensures YCenter(q) - YDiff(q) == MinY(q) && YCenter(q) + YDiff(q) == MaxY(q)
    ensures 2.0 * XDiff(q) == Width(q) && 2.0 * YDiff(q) == Height(q)
    ensures XDiff(q) >= 0.0 && YDiff(q) >= 0.0
  {
  }

  /** Building the corners of an ordered box and taking their bounding box is the identity. */
  lemma BBoxOfCorners(b: Box)
    requires Ordered(b)
    ensures BBox(Corners(b)) == b
    ensures IsNormalRect(Corners(b)) && IsAxisRect(Corners(b))
  {
  }

  /** A shape lies in the image exactly when its bounding box does. */
  lemma QuadInImageIffBox(q: Quad, img: Image)
    ensures QuadInImage(q, img) <==> BoxInImage(BBox(q), img)
  {
    var b := BBox(q);
    if BoxInImage(b, img) {
      forall i | 0 <= i < 4 ensures InImage(q[i], img) {
        assert b.x0 <= q[i].x <= b.x1 && b.y0 <= q[i].y <= b.y1;
      }
    }
    if QuadInImage(q, img) {
      assert InImage(q[0], img) && InImage(q[1], img) && InImage(q[2], img) && InImage(q[3], img);
    }
  }

  /** Translating a shape translates its bounding box. */
  lemma BBoxTranslate(q: Quad, d: Point)
    ensures BBox(Translate(q, d)) == Box(BBox(q).x0 + d.x, BBox(q).y0 + d.y, BBox(q).x1 + d.x, BBox(q).y1 + d.y)
  {
  }
}
