/** Keeping points inside the image rectangle (libs/canvas.py). */
module Clamp {
  import opened Geometry

  /** `outOfPixmap`: the point is not in the closed rectangle [0,W]×[0,H]. */
  predicate OutOfPixmap(img: Image, p: Point) {
    !(0.0 <= p.x <= img.W() && 0.0 <= p.y <= img.H())
  }

  /** The result of `snapPointToCanvas`: the point and whether it was changed. */
  datatype Snap = Snap(p: Point, snapped: bool)

  /**
   * `snapPointToCanvas`: a point outside the image is clamped into it
   * coordinate by coordinate; a point inside is returned as is.
   */
  function SnapPointToCanvas(img: Image, x: real, y: real): (r: Snap)
    ensures InImage(r.p, img)
    ensures !r.snapped <==> InImage(Point(x, y), img)
    ensures !r.snapped ==> r.p == Point(x, y)
    ensures r.snapped ==> r.p != Point(x, y)
  {
    if x < 0.0 || x > img.W() || y < 0.0 || y > img.H() then
      var x1 := Max(x, 0.0);
      var y1 := Max(y, 0.0);
      Snap(Point(Min(x1, img.W()), Min(y1, img.H())), true)
    else
      Snap(Point(x, y), false)
  }

  /** The snapped point is, on each axis, the image coordinate nearest to the input. */
  lemma SnapIsNearest(img: Image, x: real, y: real, q: Point)
    requires InImage(q, img)
    ensures var r := SnapPointToCanvas(img, x, y).p;
      Dist(r.x, x) <= Dist(q.x, x) && Dist(r.y, y) <= Dist(q.y, y)
  {
  }

  /** Snapping is idempotent: a snapped point snaps to itself with no change reported. */
  lemma SnapIdempotent(img: Image, x: real, y: real)
    ensures var r := SnapPointToCanvas(img, x, y).p;
      SnapPointToCanvas(img, r.x, r.y) == Snap(r, false)
  {
  }

  function Dist(a: real, b: real): real { if a >= b then a - b else b - a }

  /** `moveOutOfBound`: some corner would leave the image after adding `step`. */
  predicate MoveOutOfBound(img: Image, q: Quad, step: Point) {
    exists i | 0 <= i < 4 :: OutOfPixmap(img, Add(q[i], step))
  }

  /** A step keeps a shape in the image exactly when `moveOutOfBound` is false. */
  lemma MoveOutOfBoundIff(img: Image, q: Quad, step: Point)
    ensures !MoveOutOfBound(img, q, step) <==> QuadInImage(Translate(q, step), img)
  {
    var t := Translate(q, step);
    if !MoveOutOfBound(img, q, step) {
      forall i | 0 <= i < 4 ensures InImage(t[i], img) {
        assert !OutOfPixmap(img, Add(q[i], step));
      }
    }
  }
}
