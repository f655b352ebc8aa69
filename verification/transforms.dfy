/**
 * The one-shot geometric edits of libs/canvas.py: rotate, click-move,
 * the magnet jump, click-resize, the three cuts and the merge box.
 * Each works on the corners of one shape (or of a group, for merge);
 * updating the shape list and the selection is done in module Canvas.
 */
module Transforms {
  import opened Wrappers
  import opened Geometry

  // ---------------------------------------------------------------------------
  // Rotate (`rotateShape`)
  // ---------------------------------------------------------------------------

  /**
   * `rotateShape`: the rectangle with the same centre and swapped half
   * extents, or None (no change) when that rectangle would leave the image.
   */
  function RotateShape(img: Image, q: Quad): (r: Option<Quad>)
    ensures r.Some? <==> QuadInImage(Around(XCenter(q), YCenter(q), YDiff(q), XDiff(q)), img)
    ensures r.Some? ==> && QuadInImage(r.value, img) && IsNormalRect(r.value)
                        && XCenter(r.value) == XCenter(q) && YCenter(r.value) == YCenter(q)
                        && Width(r.value) == Height(q) && Height(r.value) == Width(q)
  {
    var xc := XCenter(q);
    var yc := YCenter(q);
    var xd := XDiff(q);
    var yd := YDiff(q);
    HalfExtents(q);
    var b := Box(xc - yd, yc - xd, xc + yd, yc + xd);
    BBoxOfCorners(b);
    QuadInImageIffBox(Corners(b), img);
    if xc + yd <= img.W() && yc + xd <= img.H() && yc - xd >= 0.0 && xc - yd >= 0.0 then
      Some(Corners(b))
    else
      None
  }

  /**
   * Rotating a rectangle that lies in the image twice gives it back: the
   * second rotation always applies and swaps the half extents back.
   */
  lemma RotateTwice(img: Image, q: Quad)
    requires IsNormalRect(q) && QuadInImage(q, img)
    requires RotateShape(img, q).Some?
    ensures RotateShape(img, RotateShape(img, q).value) == Some(q)
  {
    var r := RotateShape(img, q).value;
    HalfExtents(q);
    HalfExtents(r);
    QuadInImageIffBox(q, img);
    var b := BBox(q);
    assert Around(XCenter(r), YCenter(r), YDiff(r), XDiff(r)) == Corners(b);
    BBoxOfCorners(b);
  }

  // ---------------------------------------------------------------------------
  // Click-move (`clickmoveShape`) and the magnet jump (`trackingMagnetShape`)
  // ---------------------------------------------------------------------------

  /** The nearest value to v in [lo, hi] (for lo <= hi). */
  function ClampTo(v: real, lo: real, hi: real): real {
    if v < lo then lo else if v > hi then hi else v
  }

  /**
   * The nine placements of `clickmoveShape` for a shape of half extents
   * (xd, yd) clicked at c in a w×h image, tried in the source's order:
   * centred, left-top, left, left-bottom, top, bottom, right-top, right,
   * right-bottom. None when no branch matches.
   */
  function ClickMoveBox(w: real, h: real, xd: real, yd: real, c: Point): Option<Box> {
    var fitsRight := c.x + xd <= w;
    var fitsBottom := c.y + yd <= h;
    var fitsTop := c.y - yd >= 0.0;
    var fitsLeft := c.x - xd >= 0.0;
    if fitsRight && fitsBottom && fitsTop && fitsLeft then Some(Box(c.x - xd, c.y - yd, c.x + xd, c.y + yd))
    else if fitsRight && fitsBottom && !fitsTop && !fitsLeft then Some(Box(0.0, 0.0, xd * 2.0, yd * 2.0))
    else if fitsRight && fitsBottom && fitsTop && !fitsLeft then Some(Box(0.0, c.y - yd, xd * 2.0, c.y + yd))
    else if fitsRight && !fitsBottom && fitsTop && !fitsLeft then Some(Box(0.0, h - yd * 2.0, xd * 2.0, h))
    else if fitsRight && fitsBottom && !fitsTop && fitsLeft then Some(Box(c.x - xd, 0.0, c.x + xd, yd * 2.0))
    else if fitsRight && !fitsBottom && fitsTop && fitsLeft then Some(Box(c.x - xd, h - yd * 2.0, c.x + xd, h))
    else if !fitsRight && fitsBottom && !fitsTop && fitsLeft then Some(Box(w - xd * 2.0, 0.0, w, yd * 2.0))
    else if !fitsRight && fitsBottom && fitsTop && fitsLeft then Some(Box(w - xd * 2.0, c.y - yd, w, c.y + yd))
    else if !fitsRight && !fitsBottom && fitsTop && fitsLeft then Some(Box(w - xd * 2.0, h - yd * 2.0, w, h))
    else None
  }

  /** Every placement keeps the extents 2·xd by 2·yd. */
  lemma ClickMoveBoxExtents(w: real, h: real, xd: real, yd: real, c: Point)
    requires xd >= 0.0 && yd >= 0.0
    ensures var b := ClickMoveBox(w, h, xd, yd, c);
      b.Some? ==> b.value.x1 - b.value.x0 == 2.0 * xd && b.value.y1 - b.value.y0 == 2.0 * yd
  {
  }

  /** When the extents fit in the image, the placement is the click clamped to the admissible centres. */
  lemma ClickMoveBoxClamps(w: real, h: real, xd: real, yd: real, c: Point)
    requires 0.0 <= xd && 2.0 * xd <= w && 0.0 <= yd && 2.0 * yd <= h
    ensures var cx := ClampTo(c.x, xd, w - xd); var cy := ClampTo(c.y, yd, h - yd);
      ClickMoveBox(w, h, xd, yd, c) == Some(Box(cx - xd, cy - yd, cx + xd, cy + yd))
  {
    if c.x - xd < 0.0 {
      if c.y - yd < 0.0 {} else if c.y + yd > h {} else {}
    } else if c.x + xd > w {
      if c.y - yd < 0.0 {} else if c.y + yd > h {} else {}
    } else {
      if c.y - yd < 0.0 {} else if c.y + yd > h {} else {}
    }
  }

  /**
   * `clickmoveShape`: centre the shape on the click when it fits there,
   * otherwise put it flush against the edge or corner it would overflow.
   * None is the case the nine branches do not cover (possible only for a
   * shape wider or taller than the image), where the shape is left as it was.
   */
  function ClickMoveShape(img: Image, q: Quad, c: Point): (r: Option<Quad>)
    ensures r.Some? ==> IsNormalRect(r.value) && Width(r.value) == Width(q) && Height(r.value) == Height(q)
    ensures QuadInImage(Around(c.x, c.y, XDiff(q), YDiff(q)), img) ==> r == Some(Around(c.x, c.y, XDiff(q), YDiff(q)))
  {
    HalfExtents(q);
    QuadInImageIffBox(Around(c.x, c.y, XDiff(q), YDiff(q)), img);
    var b := ClickMoveBox(img.W(), img.H(), XDiff(q), YDiff(q), c);
    ClickMoveBoxExtents(img.W(), img.H(), XDiff(q), YDiff(q), c);
    if b.Some? then BBoxOfCorners(b.value); Some(Corners(b.value)) else None
  }

  /**
   * For a shape no larger than the image, click-move always applies, and
   * the new centre is the click clamped so that the shape fits: every
   * branch leaves the shape inside the image.
   */
  lemma ClickMoveClamps(img: Image, q: Quad, c: Point)
    requires Width(q) <= img.W() && Height(q) <= img.H()
    ensures var xd := XDiff(q); var yd := YDiff(q);
      && ClickMoveShape(img, q, c)
         == Some(Around(ClampTo(c.x, xd, img.W() - xd), ClampTo(c.y, yd, img.H() - yd), xd, yd))
      && QuadInImage(ClickMoveShape(img, q, c).value, img)
  {
    var xd := XDiff(q);
    var yd := YDiff(q);
    HalfExtents(q);
    ClickMoveBoxClamps(img.W(), img.H(), xd, yd, c);
    var cx := ClampTo(c.x, xd, img.W() - xd);
    var cy := ClampTo(c.y, yd, img.H() - yd);
    var b := Box(cx - xd, cy - yd, cx + xd, cy + yd);
    assert ClickMoveShape(img, q, c) == Some(Corners(b));
    BBoxOfCorners(b);
    QuadInImageIffBox(Corners(b), img);
  }

  /**
   * `trackingMagnetShape`: re-centre the shape on the cursor, but only when
   * it then lies entirely in the image (None: nothing changes).
   */
  function TrackingMagnetShape(img: Image, q: Quad, pos: Point): (r: Option<Quad>)
    ensures r.Some? <==> QuadInImage(Around(pos.x, pos.y, XDiff(q), YDiff(q)), img)
    ensures r.Some? ==> && QuadInImage(r.value, img) && XCenter(r.value) == pos.x && YCenter(r.value) == pos.y
                        && Width(r.value) == Width(q) && Height(r.value) == Height(q)
  {
    var xd := XDiff(q);
    var yd := YDiff(q);
    HalfExtents(q);
    var b := Box(pos.x - xd, pos.y - yd, pos.x + xd, pos.y + yd);
    BBoxOfCorners(b);
    QuadInImageIffBox(Corners(b), img);
    if pos.x + xd <= img.W() && pos.y + yd <= img.H() && pos.y - yd >= 0.0 && pos.x - xd >= 0.0 then
      Some(Corners(b))
    else None
  }

  // ---------------------------------------------------------------------------
  // Click-resize (`Resizebox`)
  // ---------------------------------------------------------------------------

  /** The clockwise rectangle spanned by two opposite corners. */
  function Span(a: Point, b: Point): Box {
    Box(Min(a.x, b.x), Min(a.y, b.y), Max(a.x, b.x), Max(a.y, b.y))
  }

  /**
   * `Resizebox`. Without a click the box doubles its width and height from
   * its minimum corner, provided the result stays strictly inside the image
   * (otherwise it is unchanged). With a click the box is rebuilt between its
   * minimum corner and the click, the click's quadrant choosing the order.
   */
  function Resizebox(img: Image, q: Quad, click: Option<Point>): (r: Quad)
    ensures click.None? && MaxX(q) + Width(q) < img.W() && MaxY(q) + Height(q) < img.H() ==>
      && BBox(r).x0 == MinX(q) && BBox(r).y0 == MinY(q)
      && Width(r) == 2.0 * Width(q) && Height(r) == 2.0 * Height(q)
      && IsNormalRect(r) && BBox(r).x1 < img.W() && BBox(r).y1 < img.H()
    ensures click.None? && !(MaxX(q) + Width(q) < img.W() && MaxY(q) + Height(q) < img.H()) ==> r == q
    ensures click.Some? ==> BBox(r) == Span(Point(MinX(q), MinY(q)), click.value)
    ensures click.Some? && click.value.x != MinX(q) && click.value.y != MinY(q) ==>
      r == Corners(Span(Point(MinX(q), MinY(q)), click.value))
  {
    var minx := MinX(q);
    var miny := MinY(q);
    var xd := MaxX(q) - minx;
    var yd := MaxY(q) - miny;
    match click
    case None =>
      if MaxX(q) + xd < img.W() && MaxY(q) + yd < img.H() then
        var b := Box(minx, miny, MaxX(q) + xd, MaxY(q) + yd);
        BBoxOfCorners(b);
        Corners(b)
      else q
    case Some(c) => ResizeToClick(Point(minx, miny), c)
  }

  /**
   * The clicked branch of `Resizebox`: the box between the anchor (the old
   * minimum corner) and the click, its vertex order chosen by the click's
   * quadrant around the anchor.
   */
  function ResizeToClick(a: Point, c: Point): (r: Quad)
    ensures BBox(r) == Span(a, c)
    ensures c.x != a.x && c.y != a.y ==> r == Corners(Span(a, c))
  {
    var cxd := c.x - a.x;
    var cyd := c.y - a.y;
    if cxd > 0.0 && cyd > 0.0 then
      [Point(a.x, a.y), Point(c.x, a.y), Point(c.x, c.y), Point(a.x, c.y)]
    else if cxd < 0.0 && cyd < 0.0 then
      [Point(c.x, c.y), Point(a.x, c.y), Point(a.x, a.y), Point(c.x, a.y)]
    else if cxd > 0.0 && cyd < 0.0 then
      [Point(a.x, c.y), Point(c.x, c.y), Point(c.x, a.y), Point(a.x, a.y)]
    else
      [Point(c.x, a.y), Point(a.x, a.y), Point(a.x, c.y), Point(c.x, c.y)]
  }

  /** Resizing a shape inside the image to a click inside the image keeps it inside. */
  lemma ResizeboxInImage(img: Image, q: Quad, c: Point)
    requires QuadInImage(q, img) && InImage(c, img)
    ensures QuadInImage(Resizebox(img, q, Some(c)), img)
  {
    QuadInImageIffBox(q, img);
    QuadInImageIffBox(Resizebox(img, q, Some(c)), img);
  }

  // ---------------------------------------------------------------------------
  // Cuts (`Horizontalcut`, `Verticalcut`, `Crosscut`)
  // ---------------------------------------------------------------------------

  /** The cut line: the click's coordinate, or the centre when there is no click. */
  function CutY(q: Quad, click: Option<Point>): real {
    match click
    case None => YCenter(q)
    case Some(c) => c.y
  }

  function CutX(q: Quad, click: Option<Point>): real {
    match click
    case None => XCenter(q)
    case Some(c) => c.x
  }

  /** A click the canvas accepts for a cut lies strictly inside the shape's bounding box. */
  predicate CutClickOk(q: Quad, click: Option<Point>) {
    click.Some? ==> StrictlyInBox(click.value, BBox(q))
  }

  /** `Horizontalcut`: the corners of the top piece (kept by the original) and the bottom piece (a copy). */
  function HorizontalPieces(q: Quad, click: Option<Point>): (r: (Quad, Quad))
    ensures r.0 == Corners(Box(MinX(q), MinY(q), MaxX(q), CutY(q, click)))
    ensures r.1 == Corners(Box(MinX(q), CutY(q, click), MaxX(q), MaxY(q)))
  {
    var xc := XCenter(q);
    var yc := YCenter(q);
    var xd := XDiff(q);
    var yd := YDiff(q);
    HalfExtents(q);
    var y := if click.Some? then click.value.y else yc;
    ([Point(xc - xd, yc - yd), Point(xc + xd, yc - yd), Point(xc + xd, y), Point(xc - xd, y)],
     [Point(xc - xd, y), Point(xc + xd, y), Point(xc + xd, yc + yd), Point(xc - xd, yc + yd)])
  }

  /** `Verticalcut`: the corners of the left piece (kept by the original) and the right piece (a copy). */
  function VerticalPieces(q: Quad, click: Option<Point>): (r: (Quad, Quad))
    ensures r.0 == Corners(Box(MinX(q), MinY(q), CutX(q, click), MaxY(q)))
    ensures r.1 == Corners(Box(CutX(q, click), MinY(q), MaxX(q), MaxY(q)))
  {
    var xc := XCenter(q);
    var yc := YCenter(q);
    var xd := XDiff(q);
    var yd := YDiff(q);
    HalfExtents(q);
    var x := if click.Some? then click.value.x else xc;
    ([Point(xc - xd, yc - yd), Point(x, yc - yd), Point(x, yc + yd), Point(xc - xd, yc + yd)],
     [Point(x, yc - yd), Point(xc + xd, yc - yd), Point(xc + xd, yc + yd), Point(x, yc + yd)])
  }

  /**
   * `Crosscut`: the four quadrants around the cut point, in the order
   * top-left (kept by the original), top-right, bottom-left, bottom-right.
   */
  function CrossPieces(q: Quad, click: Option<Point>): (r: seq<Quad>)
    ensures |r| == 4
    ensures r[0] == Corners(Box(MinX(q), MinY(q), CutX(q, click), CutY(q, click)))
    ensures r[1] == Corners(Box(CutX(q, click), MinY(q), MaxX(q), CutY(q, click)))
    ensures r[2] == Corners(Box(MinX(q), CutY(q, click), CutX(q, click), MaxY(q)))
    ensures r[3] == Corners(Box(CutX(q, click), CutY(q, click), MaxX(q), MaxY(q)))
  {
    var xc := XCenter(q);
    var yc := YCenter(q);
    var xd := XDiff(q);
    var yd := YDiff(q);
    HalfExtents(q);
    var x := if click.Some? then click.value.x else xc;
    var y := if click.Some? then click.value.y else yc;
    [[Point(xc - xd, yc - yd), Point(x, yc - yd), Point(x, y), Point(xc - xd, y)],
     [Point(x, yc - yd), Point(xc + xd, yc - yd), Point(xc + xd, y), Point(x, y)],
     [Point(xc - xd, y), Point(x, y), Point(x, yc + yd), Point(xc - xd, yc + yd)],
     [Point(x, y), Point(xc + xd, y), Point(xc + xd, yc + yd), Point(x, yc + yd)]]
  }

  /** The smallest box holding two boxes. */
  function Hull(a: Box, b: Box): Box {
    Box(Min(a.x0, b.x0), Min(a.y0, b.y0), Max(a.x1, b.x1), Max(a.y1, b.y1))
  }

  /** No point lies strictly inside both boxes. */
  ghost predicate InteriorsDisjoint(a: Box, b: Box) {
    forall p: Point :: !(StrictlyInBox(p, a) && StrictlyInBox(p, b))
  }

  lemma CutLineInside(q: Quad, click: Option<Point>)
    requires CutClickOk(q, click)
    ensures MinX(q) <= CutX(q, click) <= MaxX(q) && MinY(q) <= CutY(q, click) <= MaxY(q)
  {
    HalfExtents(q);
  }

  /**
   * Horizontal cut law: the two pieces share the cut edge, together they
   * cover the original bounding box and nothing more, and they do not overlap.
   */
  lemma HorizontalTiles(q: Quad, click: Option<Point>)
    requires CutClickOk(q, click)
    ensures var (top, bottom) := HorizontalPieces(q, click);
      && Hull(BBox(top), BBox(bottom)) == BBox(q)
      && BBox(top).y1 == BBox(bottom).y0
      && (forall p: Point :: InBox(p, BBox(q)) <==> InBox(p, BBox(top)) || InBox(p, BBox(bottom)))
      && InteriorsDisjoint(BBox(top), BBox(bottom))
  {
    CutLineInside(q, click);
    var b := BBox(q);
    var y := CutY(q, click);
    BBoxOfCorners(Box(b.x0, b.y0, b.x1, y));
    BBoxOfCorners(Box(b.x0, y, b.x1, b.y1));
  }

  /** Vertical cut law, as for the horizontal cut with the axes exchanged. */
  lemma VerticalTiles(q: Quad, click: Option<Point>)
    requires CutClickOk(q, click)
    ensures var (left, right) := VerticalPieces(q, click);
      && Hull(BBox(left), BBox(right)) == BBox(q)
      && BBox(left).x1 == BBox(right).x0
      && (forall p: Point :: InBox(p, BBox(q)) <==> InBox(p, BBox(left)) || InBox(p, BBox(right)))
      && InteriorsDisjoint(BBox(left), BBox(right))
  {
    CutLineInside(q, click);
    var b := BBox(q);
    var x := CutX(q, click);
    BBoxOfCorners(Box(b.x0, b.y0, x, b.y1));
    BBoxOfCorners(Box(x, b.y0, b.x1, b.y1));
  }

  /** Cross cut law: the four quadrants cover the original bounding box exactly and pairwise do not overlap. */
  lemma CrossTiles(q: Quad, click: Option<Point>)
    requires CutClickOk(q, click)
    ensures var r := CrossPieces(q, click);
      && Hull(Hull(BBox(r[0]), BBox(r[1])), Hull(BBox(r[2]), BBox(r[3]))) == BBox(q)
      && (forall p: Point :: InBox(p, BBox(q)) <==>
            InBox(p, BBox(r[0])) || InBox(p, BBox(r[1])) || InBox(p, BBox(r[2])) || InBox(p, BBox(r[3])))
      && (forall i, j | 0 <= i < j < 4 :: InteriorsDisjoint(BBox(r[i]), BBox(r[j])))
  {
    CutLineInside(q, click);
    var b := BBox(q);
    var x := CutX(q, click);
    var y := CutY(q, click);
    var r := CrossPieces(q, click);
    BBoxOfCorners(Box(b.x0, b.y0, x, y));
    BBoxOfCorners(Box(x, b.y0, b.x1, y));
    BBoxOfCorners(Box(b.x0, y, x, b.y1));
    BBoxOfCorners(Box(x, y, b.x1, b.y1));
    assert BBox(r[0]) == Box(b.x0, b.y0, x, y);
    assert BBox(r[1]) == Box(x, b.y0, b.x1, y);
    assert BBox(r[2]) == Box(b.x0, y, x, b.y1);
    assert BBox(r[3]) == Box(x, y, b.x1, b.y1);
    QuadrantsTile(b, x, y);
  }

  /** The four quadrants of a box around an inner point tile it. */
  lemma QuadrantsTile(b: Box, x: real, y: real)
    requires b.x0 <= x <= b.x1 && b.y0 <= y <= b.y1
    ensures var t := [Box(b.x0, b.y0, x, y), Box(x, b.y0, b.x1, y), Box(b.x0, y, x, b.y1), Box(x, y, b.x1, b.y1)];
      && Hull(Hull(t[0], t[1]), Hull(t[2], t[3])) == b
      && (forall p: Point :: InBox(p, b) <==> InBox(p, t[0]) || InBox(p, t[1]) || InBox(p, t[2]) || InBox(p, t[3]))
      && (forall i, j | 0 <= i < j < 4 :: InteriorsDisjoint(t[i], t[j]))
  {
  }

  // ---------------------------------------------------------------------------
  // Merge box (`mergeShape`)
  // ---------------------------------------------------------------------------

  /** The min/max box over every corner of every shape in a non-empty group. */
  function GroupBox(qs: seq<Quad>): (r: Box)
    requires |qs| > 0
    ensures Ordered(r)
    ensures forall k, i | 0 <= k < |qs| && 0 <= i < 4 :: InBox(qs[k][i], r)
    ensures exists k, i | 0 <= k < |qs| && 0 <= i < 4 :: qs[k][i].x == r.x0
    ensures exists k, i | 0 <= k < |qs| && 0 <= i < 4 :: qs[k][i].y == r.y0
    ensures exists k, i | 0 <= k < |qs| && 0 <= i < 4 :: qs[k][i].x == r.x1
    ensures exists k, i | 0 <= k < |qs| && 0 <= i < 4 :: qs[k][i].y == r.y1
    decreases |qs|
  {
    if |qs| == 1 then BBox(qs[0])
    else
      var rest := GroupBox(qs[1..]);
      assert forall k | 1 <= k < |qs| :: qs[k] == qs[1..][k - 1];
      Hull(BBox(qs[0]), rest)
  }
}
