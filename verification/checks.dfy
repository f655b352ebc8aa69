/**
 * The two shape checks of labelImg.py: the degeneracy test run before
 * saving (`checkShapespoints`) and the bounds test applied to preset
 * shapes (`presetChecker`).
 */
module Checks {
  import opened Geometry

  /**
   * The rejection rule of `checkShapespoints` for one shape: at most 1 px
   * wide or high, or at most 2 px wide (high) while lying within 1 px of
   * the left or right (top or bottom) image edge.
   */
  predicate Degenerate(q: Quad, img: Image) {
    var x0, x1, y0, y1 := MinX(q), MaxX(q), MinY(q), MaxY(q);
    || x0 + 1.0 >= x1 || y0 + 1.0 >= y1
    || (0.0 <= x0 <= 1.0 && x0 + 2.0 >= x1)
    || (0.0 <= y0 <= 1.0 && y0 + 2.0 >= y1)
    || (img.W() - 1.0 <= x1 <= img.W() && x0 + 2.0 >= x1)
    || (img.H() - 1.0 <= y1 <= img.H() && y0 + 2.0 >= y1)
  }

  /** `checkShapespoints`: true exactly when no shape is degenerate. */
  method CheckShapesPoints(shapes: seq<Shape>, img: Image) returns (ok: bool)
    ensures ok <==> forall k | 0 <= k < |shapes| :: !Degenerate(shapes[k].points, img)
  {
    var k := 0;
    while k < |shapes|
      invariant 0 <= k <= |shapes|
      invariant forall j | 0 <= j < k :: !Degenerate(shapes[j].points, img)
    {
      if Degenerate(shapes[k].points, img) {
        return false;
      }
      k := k + 1;
    }
    return true;
  }

  /**
   * What the rule means: a box at most 1 px wide or high is always
   * rejected, one wider and higher than 2 px is always accepted, and a
   * narrower one is rejected only beside an image edge.
   */
  lemma DegenerateThresholds(q: Quad, img: Image)
    ensures Width(q) <= 1.0 || Height(q) <= 1.0 ==> Degenerate(q, img)
    ensures Width(q) > 2.0 && Height(q) > 2.0 ==> !Degenerate(q, img)
    ensures (&& Width(q) > 1.0 && Height(q) > 1.0 && MinX(q) > 1.0 && MaxX(q) < img.W() - 1.0
             && MinY(q) > 1.0 && MaxY(q) < img.H() - 1.0) ==> !Degenerate(q, img)
  {
  }

  /** A 2 px wide box touching the left edge is rejected even though it is more than 1 px wide. */
  lemma EdgeSliverRejected(img: Image)
    ensures var q: Quad := [Point(0.0, 1.0), Point(2.0, 1.0), Point(2.0, 9.0), Point(0.0, 9.0)];
      Width(q) == 2.0 && Degenerate(q, img)
  {
  }

  /** `presetChecker`: one flag per preset, true when its far corner fits in the image. */
  method PresetChecker(presets: seq<Shape>, img: Image) returns (fits: seq<bool>)
    ensures |fits| == |presets|
    ensures forall k | 0 <= k < |presets| :: fits[k] <==> MaxX(presets[k].points) <= img.W() && MaxY(presets[k].points) <= img.H()
  {
    fits := [];
    var k := 0;
    while k < |presets|
      invariant 0 <= k <= |presets| && |fits| == k
      invariant forall j | 0 <= j < k :: fits[j] <==> MaxX(presets[j].points) <= img.W() && MaxY(presets[j].points) <= img.H()
    {
      var q := presets[k].points;
      fits := fits + [MaxX(q) <= img.W() && MaxY(q) <= img.H()];
      k := k + 1;
    }
  }

  /**
   * Only the maximum is compared: for presets with non-negative corners
   * the flag says exactly whether the preset lies in the image.
   */
  lemma PresetFitsIffInImage(q: Quad, img: Image)
    requires MinX(q) >= 0.0 && MinY(q) >= 0.0
    ensures (MaxX(q) <= img.W() && MaxY(q) <= img.H()) <==> QuadInImage(q, img)
  {
    QuadInImageIffBox(q, img);
  }
}
