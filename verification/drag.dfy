/**
 * Mouse-drag edits of libs/canvas.py: dragging one corner, dragging a
 * whole shape or a group of shapes, and the cursor offsets those drags use.
 */
module Drag {
  import opened Wrappers
  import opened Geometry
  import opened Clamp

  // ---------------------------------------------------------------------------
  // Dragging one vertex (`boundedMoveVertex`)
  // ---------------------------------------------------------------------------

  /** The neighbour of vertex i that shares its x coordinate in a clockwise rectangle. */
  function XNeighbour(i: nat): nat
    requires i < 4
  {
    if i % 2 == 0 then (i + 3) % 4 else (i + 1) % 4
  }

  /** The neighbour of vertex i that shares its y coordinate in a clockwise rectangle. */
  function YNeighbour(i: nat): nat
    requires i < 4
  {
    if i % 2 == 0 then (i + 1) % 4 else (i + 3) % 4
  }

  /**
   * Where the dragged vertex goes in square mode: from the opposite corner,
   * the smaller of the two cursor distances along both axes, towards the cursor.
   */
  function SquareTarget(opposite: Point, pos: Point): (r: Point)
    ensures Dist(r.x, opposite.x) == Dist(r.y, opposite.y)
    ensures Dist(r.x, opposite.x) <= Dist(pos.x, opposite.x) && Dist(r.y, opposite.y) <= Dist(pos.y, opposite.y)
    ensures (pos.x >= opposite.x ==> r.x >= opposite.x) && (pos.x < opposite.x ==> r.x <= opposite.x)
    ensures (pos.y >= opposite.y ==> r.y >= opposite.y) && (pos.y < opposite.y ==> r.y <= opposite.y)
  {
    var size := Min(Dist(pos.x, opposite.x), Dist(pos.y, opposite.y));
    var x := if pos.x - opposite.x < 0.0 then opposite.x - size else opposite.x + size;
    var y := if pos.y - opposite.y < 0.0 then opposite.y - size else opposite.y + size;
    Point(x, y)
  }

  /**
   * `boundedMoveVertex`. A cursor outside the image is first replaced by the
   * point where the drag segment meets the image border; that projection
   * (`intersectionPoint`) needs a square root and is supplied as `edgePoint`.
   */
  function BoundedMoveVertex(img: Image, q: Quad, i: nat, pos: Point, edgePoint: Point, square: bool): (r: Quad)
    requires i < 4
    ensures r[(i + 2) % 4] == q[(i + 2) % 4]
    ensures !square ==> r[i] == (if OutOfPixmap(img, pos) then edgePoint else pos)
    ensures square ==> r[i] == SquareTarget(q[(i + 2) % 4], if OutOfPixmap(img, pos) then edgePoint else pos)
    ensures square ==> Dist(r[i].x, q[(i + 2) % 4].x) == Dist(r[i].y, q[(i + 2) % 4].y)
  {
    var point := q[i];
    var target := if OutOfPixmap(img, pos) then edgePoint else pos;
    var opposite := q[(i + 2) % 4];
    var shift := if square then Sub(SquareTarget(opposite, target), point) else Sub(target, point);
    var l := (i + 1) % 4;
    var rr := (i + 3) % 4;
    var lshift := if i % 2 == 0 then Point(0.0, shift.y) else Point(shift.x, 0.0);
    var rshift := if i % 2 == 0 then Point(shift.x, 0.0) else Point(0.0, shift.y);
    q[i := Add(point, shift)][rr := Add(q[rr], rshift)][l := Add(q[l], lshift)]
  }

  /**
   * The two neighbours of the dragged vertex follow it along one axis
   * each: the one sharing its x coordinate takes the horizontal shift, the
   * one sharing its y coordinate the vertical shift.
   */
  lemma BoundedMoveVertexNeighbours(img: Image, q: Quad, i: nat, pos: Point, edgePoint: Point, square: bool)
    requires i < 4
    ensures var r := BoundedMoveVertex(img, q, i, pos, edgePoint, square); var shift := Sub(r[i], q[i]);
      && r[XNeighbour(i)] == Point(q[XNeighbour(i)].x + shift.x, q[XNeighbour(i)].y)
      && r[YNeighbour(i)] == Point(q[YNeighbour(i)].x, q[YNeighbour(i)].y + shift.y)
  {
    if i == 0 {} else if i == 1 {} else if i == 2 {} else {}
  }

  /** Dragging a corner of an axis-aligned rectangle leaves it an axis-aligned rectangle. */
  lemma BoundedMoveVertexKeepsRect(img: Image, q: Quad, i: nat, pos: Point, edgePoint: Point, square: bool)
    requires i < 4 && IsAxisRect(q)
    ensures IsAxisRect(BoundedMoveVertex(img, q, i, pos, edgePoint, square))
  {
    var r := BoundedMoveVertex(img, q, i, pos, edgePoint, square);
    assert r[(i + 2) % 4] == q[(i + 2) % 4];
    if i == 0 {} else if i == 1 {} else if i == 2 {} else {}
  }

  /**
   * Dragging a corner of a rectangle inside the image, towards a cursor
   * inside the image (or projected onto its border), keeps it inside.
   */
  lemma BoundedMoveVertexInImage(img: Image, q: Quad, i: nat, pos: Point, edgePoint: Point, square: bool)
    requires i < 4 && IsAxisRect(q) && QuadInImage(q, img) && InImage(edgePoint, img)
    ensures QuadInImage(BoundedMoveVertex(img, q, i, pos, edgePoint, square), img)
  {
    var r := BoundedMoveVertex(img, q, i, pos, edgePoint, square);
    var target := if OutOfPixmap(img, pos) then edgePoint else pos;
    assert InImage(target, img);
    assert InImage(q[(i + 2) % 4], img);
    assert InImage(r[i], img);
    BoundedMoveVertexNeighbours(img, q, i, pos, edgePoint, square);
    AxisRectNeighbours(q, i);
    assert InImage(r[XNeighbour(i)], img) && InImage(r[YNeighbour(i)], img);
  }

  /**
   * In an axis-aligned rectangle the x-neighbour of a vertex shares its x
   * coordinate and the y-neighbour its y coordinate; with the opposite
   * vertex they are all four vertices.
   */
  lemma AxisRectNeighbours(q: Quad, i: nat)
    requires i < 4 && IsAxisRect(q)
    ensures q[XNeighbour(i)].x == q[i].x && q[YNeighbour(i)].y == q[i].y
    ensures {i, XNeighbour(i), YNeighbour(i), (i + 2) % 4} == {0, 1, 2, 3}
  {
    if i == 0 {} else if i == 1 {} else if i == 2 {} else {}
  }

  // ---------------------------------------------------------------------------
  // Dragging a whole shape (`calculateOffsets`, `boundedMoveShape`)
  // ---------------------------------------------------------------------------

  /**
   * The offsets kept by the canvas are those of the box `b` seen from the
   * anchor point: anchor + off0 is the minimum corner, anchor + off1 the maximum.
   */
  predicate OffsetsOf(b: Box, anchor: Point, off0: Point, off1: Point) {
    Add(anchor, off0) == Point(b.x0, b.y0) && Add(anchor, off1) == Point(b.x1, b.y1)
  }

  /** `calculateOffsets`: the offsets of a shape's bounding box from the clicked point. */
  function CalculateOffsets(q: Quad, p: Point): (r: (Point, Point))
    ensures OffsetsOf(BBox(q), p, r.0, r.1)
  {
    var b := BBox(q);
    (Point(b.x0 - p.x, b.y0 - p.y), Point(b.x1 - p.x, b.y1 - p.y))
  }

  /**
   * The cursor position after the clamping of `boundedMoveShape`: a corner
   * that would leave the image pulls the cursor back by the overshoot.
   */
  function ClampedCursor(img: Image, pos: Point, off0: Point, off1: Point): Point {
    var o1 := Add(pos, off0);
    var p1 := if OutOfPixmap(img, o1) then Sub(pos, Point(Min(0.0, o1.x), Min(0.0, o1.y))) else pos;
    var o2 := Add(p1, off1);
    if OutOfPixmap(img, o2) then Add(p1, Point(Min(0.0, img.W() - o2.x), Min(0.0, img.H() - o2.y))) else p1
  }

  /** With offsets of a box that fits in the image, the clamped cursor carries the box inside. */
  lemma ClampedCursorFits(img: Image, pos: Point, off0: Point, off1: Point)
    requires 0.0 <= off1.x - off0.x <= img.W() && 0.0 <= off1.y - off0.y <= img.H()
    ensures var p := ClampedCursor(img, pos, off0, off1);
      BoxInImage(Box(p.x + off0.x, p.y + off0.y, p.x + off1.x, p.y + off1.y), img)
  {
  }

  /** A drag result: the shape, the canvas's new `prevPoint`, and whether anything moved. */
  datatype Moved = Moved(q: Quad, prev: Point, moved: bool)

  /** `boundedMoveShape` for the selected shape. */
  function BoundedMoveShape(img: Image, q: Quad, pos: Point, prev: Point, off0: Point, off1: Point): (r: Moved)
    ensures OutOfPixmap(img, pos) ==> r == Moved(q, prev, false)
    ensures !r.moved ==> r.q == q && r.prev == prev
    ensures r.moved ==> r.q == Translate(q, Sub(r.prev, prev)) && r.prev != prev
  {
    if OutOfPixmap(img, pos) then Moved(q, prev, false)
    else
      var p := ClampedCursor(img, pos, off0, off1);
      var dp := Sub(p, prev);
      if !IsNull(dp) then Moved(Translate(q, dp), p, true) else Moved(q, prev, false)
  }

  /**
   * A drag that starts from offsets taken at `prev` keeps them valid, and
   * never carries a shape that fits in the image outside it.
   */
  lemma BoundedMoveShapeStaysInside(img: Image, q: Quad, pos: Point, prev: Point, off0: Point, off1: Point)
    requires OffsetsOf(BBox(q), prev, off0, off1)
    requires Width(q) <= img.W() && Height(q) <= img.H()
    ensures var r := BoundedMoveShape(img, q, pos, prev, off0, off1);
      && OffsetsOf(BBox(r.q), r.prev, off0, off1)
      && (r.moved ==> QuadInImage(r.q, img))
  {
    var r := BoundedMoveShape(img, q, pos, prev, off0, off1);
    if r.moved {
      var p := ClampedCursor(img, pos, off0, off1);
      BBoxTranslate(q, Sub(p, prev));
      ClampedCursorFits(img, pos, off0, off1);
      QuadInImageIffBox(r.q, img);
    }
  }

  // ---------------------------------------------------------------------------
  // Dragging a group (`multiShapeBoundary`, `calculateMultiOffsets`, `boundedMoveShapeMulti`)
  // ---------------------------------------------------------------------------

  predicate ValidIndices(shapes: seq<Shape>, idx: seq<nat>) {
    forall k | 0 <= k < |idx| :: idx[k] < |shapes|
  }

  /** The bounding boxes of the shapes at the given indices, in that order. */
  function BoxesAt(shapes: seq<Shape>, idx: seq<nat>): (r: seq<Box>)
    requires ValidIndices(shapes, idx)
    ensures |r| == |idx|
    ensures forall k | 0 <= k < |idx| :: r[k] == BBox(shapes[idx[k]].points)
  {
    if idx == [] then [] else [BBox(shapes[idx[0]].points)] + BoxesAt(shapes, idx[1..])
  }

  /** Folds boxes into a running (xmin, ymin, xmax, ymax), as the loop of `multiShapeBoundary` does. */
  function Grow(acc: Box, boxes: seq<Box>): (r: Box)
    ensures r.x0 <= acc.x0 && r.y0 <= acc.y0 && r.x1 >= acc.x1 && r.y1 >= acc.y1
    ensures forall k | 0 <= k < |boxes| ::
      r.x0 <= boxes[k].x0 && r.y0 <= boxes[k].y0 && r.x1 >= boxes[k].x1 && r.y1 >= boxes[k].y1
    decreases |boxes|
  {
    if boxes == [] then acc
    else
      var b := boxes[0];
      Grow(GrowStep(acc, b), boxes[1..])
  }

  /** One step of the fold: the running box widened to take in `b`. */
  function GrowStep(acc: Box, b: Box): (r: Box)
    ensures r.x0 <= acc.x0 && r.y0 <= acc.y0 && r.x1 >= acc.x1 && r.y1 >= acc.y1
    ensures r.x0 <= b.x0 && r.y0 <= b.y0 && r.x1 >= b.x1 && r.y1 >= b.y1
    ensures (r.x0 == acc.x0 || r.x0 == b.x0) && (r.y0 == acc.y0 || r.y0 == b.y0)
    ensures (r.x1 == acc.x1 || r.x1 == b.x1) && (r.y1 == acc.y1 || r.y1 == b.y1)
  {
    Box(if b.x0 < acc.x0 then b.x0 else acc.x0,
        if b.y0 < acc.y0 then b.y0 else acc.y0,
        if b.x1 > acc.x1 then b.x1 else acc.x1,
        if b.y1 > acc.y1 then b.y1 else acc.y1)
  }

  /** Every edge of the folded box is an edge of the start box or of one of the boxes. */
  lemma {:induction false} GrowAttained(acc: Box, boxes: seq<Box>)
    ensures var r := Grow(acc, boxes);
      && (r.x0 == acc.x0 || exists k | 0 <= k < |boxes| :: r.x0 == boxes[k].x0)
      && (r.y0 == acc.y0 || exists k | 0 <= k < |boxes| :: r.y0 == boxes[k].y0)
      && (r.x1 == acc.x1 || exists k | 0 <= k < |boxes| :: r.x1 == boxes[k].x1)
      && (r.y1 == acc.y1 || exists k | 0 <= k < |boxes| :: r.y1 == boxes[k].y1)
    decreases |boxes|
  {
    if boxes != [] {
      var next := GrowStep(acc, boxes[0]);
      GrowAttained(next, boxes[1..]);
      assert forall k | 1 <= k < |boxes| :: boxes[k] == boxes[1..][k - 1];
    }
  }

  /**
   * `multiShapeBoundary`: the union box of a group of two or more shapes.
   * The running box starts at (W, H, 0, 0), so the result never lies
   * beyond those starting values.
   */
  function MultiShapeBoundary(img: Image, shapes: seq<Shape>, multi: seq<nat>): (r: Option<Box>)
    requires ValidIndices(shapes, multi)
    ensures r.None? <==> |multi| <= 1
    ensures r.Some? ==> r.value.x0 <= img.W() && r.value.y0 <= img.H() && r.value.x1 >= 0.0 && r.value.y1 >= 0.0
    ensures r.Some? ==> forall k | 0 <= k < |multi| :: ContainsBox(r.value, BBox(shapes[multi[k]].points))
  {
    if |multi| > 1 then
      var boxes := BoxesAt(shapes, multi);
      var b := Grow(Box(img.W(), img.H(), 0.0, 0.0), boxes);
      assert forall k | 0 <= k < |multi| :: boxes[k] == BBox(shapes[multi[k]].points);
      Some(b)
    else None
  }

  predicate ContainsBox(outer: Box, inner: Box) {
    outer.x0 <= inner.x0 && outer.y0 <= inner.y0 && inner.x1 <= outer.x1 && inner.y1 <= outer.y1
  }

  /**
   * When every box reaches past the start box on all four sides (as any
   * box in the image does past (W, H, 0, 0)), each edge of the fold is an
   * edge of one of the boxes.
   */
  lemma GrowFromCornerTight(start: Box, boxes: seq<Box>)
    requires |boxes| > 0
    requires forall k | 0 <= k < |boxes| ::
      boxes[k].x0 <= start.x0 && boxes[k].y0 <= start.y0 && boxes[k].x1 >= start.x1 && boxes[k].y1 >= start.y1
    ensures var r := Grow(start, boxes);
      && (exists k | 0 <= k < |boxes| :: r.x0 == boxes[k].x0)
      && (exists k | 0 <= k < |boxes| :: r.y0 == boxes[k].y0)
      && (exists k | 0 <= k < |boxes| :: r.x1 == boxes[k].x1)
      && (exists k | 0 <= k < |boxes| :: r.y1 == boxes[k].y1)
  {
    GrowAttained(start, boxes);
    var r := Grow(start, boxes);
    assert r.x0 <= boxes[0].x0 && r.y0 <= boxes[0].y0 && r.x1 >= boxes[0].x1 && r.y1 >= boxes[0].y1;
  }

  /** For a group inside the image, the boundary is exactly the union: every edge is some member's edge. */
  lemma MultiShapeBoundaryTight(img: Image, shapes: seq<Shape>, multi: seq<nat>)
    requires ValidIndices(shapes, multi) && |multi| > 1
    requires forall k | 0 <= k < |multi| :: QuadInImage(shapes[multi[k]].points, img)
    ensures var b := MultiShapeBoundary(img, shapes, multi).value;
      && (exists k | 0 <= k < |multi| :: b.x0 == BBox(shapes[multi[k]].points).x0)
      && (exists k | 0 <= k < |multi| :: b.y0 == BBox(shapes[multi[k]].points).y0)
      && (exists k | 0 <= k < |multi| :: b.x1 == BBox(shapes[multi[k]].points).x1)
      && (exists k | 0 <= k < |multi| :: b.y1 == BBox(shapes[multi[k]].points).y1)
  {
    var boxes := BoxesAt(shapes, multi);
    var start := Box(img.W(), img.H(), 0.0, 0.0);
    forall k | 0 <= k < |boxes|
      ensures boxes[k].x0 <= start.x0 && boxes[k].y0 <= start.y0 && boxes[k].x1 >= start.x1 && boxes[k].y1 >= start.y1
    {
      QuadInImageIffBox(shapes[multi[k]].points, img);
    }
    GrowFromCornerTight(start, boxes);
  }

  /** The boundary of a group inside the image is an ordered box inside the image. */
  lemma MultiShapeBoundaryFits(img: Image, shapes: seq<Shape>, multi: seq<nat>)
    requires ValidIndices(shapes, multi) && |multi| > 1
    requires forall k | 0 <= k < |multi| :: QuadInImage(shapes[multi[k]].points, img)
    ensures Ordered(MultiShapeBoundary(img, shapes, multi).value)
    ensures BoxInImage(MultiShapeBoundary(img, shapes, multi).value, img)
  {
    var b := MultiShapeBoundary(img, shapes, multi).value;
    MultiShapeBoundaryTight(img, shapes, multi);
    forall k | 0 <= k < |multi| ensures BoxInImage(BBox(shapes[multi[k]].points), img) {
      QuadInImageIffBox(shapes[multi[k]].points, img);
    }
    assert ContainsBox(b, BBox(shapes[multi[0]].points));
  }

  /** `calculateMultiOffsets`: offsets of the group's union box from the clicked point, for two or more shapes. */
  function CalculateMultiOffsets(img: Image, shapes: seq<Shape>, multi: seq<nat>, p: Point): (r: Option<(Point, Point)>)
    requires ValidIndices(shapes, multi)
    ensures r.Some? <==> |multi| > 1
    ensures r.Some? ==> OffsetsOf(MultiShapeBoundary(img, shapes, multi).value, p, r.value.0, r.value.1)
  {
    match MultiShapeBoundary(img, shapes, multi)
    case None => None
    case Some(b) => Some((Point(b.x0 - p.x, b.y0 - p.y), Point(b.x1 - p.x, b.y1 - p.y)))
  }

  /** The result of a group drag: the whole shape list, the new `prevPoint`, and whether anything moved. */
  datatype GroupMoved = GroupMoved(shapes: seq<Shape>, prev: Point, moved: bool)

  function MoveShape(s: Shape, d: Point): Shape { s.(points := Translate(s.points, d)) }

  /** `boundedMoveShapeMulti`: every member of the group moves by the same clamped delta. */
  function BoundedMoveShapeMulti(img: Image, shapes: seq<Shape>, multi: seq<nat>, pos: Point, prev: Point,
                                 off0: Point, off1: Point): (r: GroupMoved)
    ensures |r.shapes| == |shapes|
    ensures !r.moved ==> r.shapes == shapes && r.prev == prev
    ensures OutOfPixmap(img, pos) ==> !r.moved
    ensures r.moved ==> r.prev != prev && forall k | 0 <= k < |shapes| ::
      r.shapes[k] == if k in multi then MoveShape(shapes[k], Sub(r.prev, prev)) else shapes[k]
  {
    if OutOfPixmap(img, pos) then GroupMoved(shapes, prev, false)
    else
      var p := ClampedCursor(img, pos, off0, off1);
      var dp := Sub(p, prev);
      if !IsNull(dp) then
        GroupMoved(seq(|shapes|, k requires 0 <= k < |shapes| => if k in multi then MoveShape(shapes[k], dp) else shapes[k]), p, true)
      else GroupMoved(shapes, prev, false)
  }

  /** A group dragged with offsets of a union box that fits in the image stays inside the image. */
  lemma GroupMoveStaysInside(img: Image, shapes: seq<Shape>, multi: seq<nat>, b: Box, pos: Point, prev: Point,
                             off0: Point, off1: Point)
    requires ValidIndices(shapes, multi)
    requires OffsetsOf(b, prev, off0, off1) && Ordered(b) && BoxInImage(b, img)
    requires forall k | 0 <= k < |multi| :: ContainsBox(b, BBox(shapes[multi[k]].points))
    ensures var r := BoundedMoveShapeMulti(img, shapes, multi, pos, prev, off0, off1);
      r.moved ==> forall k | 0 <= k < |multi| :: QuadInImage(r.shapes[multi[k]].points, img)
  {
    var r := BoundedMoveShapeMulti(img, shapes, multi, pos, prev, off0, off1);
    if r.moved {
      var p := ClampedCursor(img, pos, off0, off1);
      ClampedCursorFits(img, pos, off0, off1);
      forall k | 0 <= k < |multi| ensures QuadInImage(r.shapes[multi[k]].points, img) {
        var q := shapes[multi[k]].points;
        BBoxTranslate(q, Sub(p, prev));
        QuadInImageIffBox(Translate(q, Sub(p, prev)), img);
      }
    }
  }
}
