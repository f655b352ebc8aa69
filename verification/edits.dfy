/**
 * The canvas operations that change shapes, lifted to the editing state
 * (libs/canvas.py): the three cuts, click-resize, merge, cancelling an
 * armed cut, rotation, click-move, arrow keys, the autotracking drag and
 * the mode routing of a mouse press.
 */
module Edits {
  import opened Wrappers
  import opened Geometry
  import opened Clamp
  import opened Drag
  import opened Transforms
  import opened Nudge
  import opened Selection

  /** The list with shape k's corners replaced by q. */
  function SetPoints(shapes: seq<Shape>, k: nat, q: Quad): (r: seq<Shape>)
    requires k < |shapes|
    ensures |r| == |shapes| && r[k] == shapes[k].(points := q)
    ensures forall j | 0 <= j < |shapes| && j != k :: r[j] == shapes[j]
  {
    shapes[k := shapes[k].(points := q)]
  }

  /** A copy of shape s with corners q (`copy()`; the copy starts visible). */
  function CopyWith(s: Shape, q: Quad): Shape {
    s.(points := q, visible := true)
  }

  // ---------------------------------------------------------------------------
  // Cuts (`Horizontalcut`, `Verticalcut`, `Crosscut`)
  // ---------------------------------------------------------------------------

  /**
   * `Horizontalcut`: the selected shape keeps the top piece, a copy holding
   * the bottom piece is appended and becomes the selection (with an empty
   * group); the armed flag and the saved click are cleared. Without a
   * selection nothing happens.
   */
  function Horizontalcut(st: State, click: Option<Point>): (r: Step)
    requires Valid(st)
    ensures st.selected.None? ==> r == Step(st, [])
    ensures st.selected.Some? ==> var k := st.selected.value; var (top, bottom) := HorizontalPieces(st.shapes[k].points, click);
      && Valid(r.st)
      && r.st.shapes == SetPoints(st.shapes, k, top) + [CopyWith(st.shapes[k], bottom)]
      && r.st.selected == Some(|st.shapes|) && r.st.multi == []
      && r.st.armed == st.armed - {HorizontalCut} && r.st.prevCutpos.None?
  {
    match st.selected
    case None => Step(st, [])
    case Some(k) =>
      var (top, bottom) := HorizontalPieces(st.shapes[k].points, click);
      var cut := st.(shapes := SetPoints(st.shapes, k, top), armed := st.armed - {HorizontalCut}, prevCutpos := None);
      var d := DeSelect(cut);
      Step(d.st.(shapes := d.st.shapes + [CopyWith(st.shapes[k], bottom)], selected := Some(|st.shapes|)), d.events)
  }

  /** `Verticalcut`: as the horizontal cut, with the left piece kept and the right piece appended. */
  function Verticalcut(st: State, click: Option<Point>): (r: Step)
    requires Valid(st)
    ensures st.selected.None? ==> r == Step(st, [])
    ensures st.selected.Some? ==> var k := st.selected.value; var (left, right) := VerticalPieces(st.shapes[k].points, click);
      && Valid(r.st)
      && r.st.shapes == SetPoints(st.shapes, k, left) + [CopyWith(st.shapes[k], right)]
      && r.st.selected == Some(|st.shapes|) && r.st.multi == []
      && r.st.armed == st.armed - {VerticalCut} && r.st.prevCutpos.None?
  {
    match st.selected
    case None => Step(st, [])
    case Some(k) =>
      var (left, right) := VerticalPieces(st.shapes[k].points, click);
      var cut := st.(shapes := SetPoints(st.shapes, k, left), armed := st.armed - {VerticalCut}, prevCutpos := None);
      var d := DeSelect(cut);
      Step(d.st.(shapes := d.st.shapes + [CopyWith(st.shapes[k], right)], selected := Some(|st.shapes|)), d.events)
  }

  /**
   * `Crosscut`: the selected shape keeps the top-left quadrant; copies with
   * the top-right, bottom-left and bottom-right quadrants are appended in
   * that order and the last one ends up selected. The source selects and
   * deselects each appended copy in turn; after the first deselection
   * autotracking is off, so those steps emit nothing and leave only the
   * final selection.
   */
  function Crosscut(st: State, click: Option<Point>): (r: Step)
    requires Valid(st)
    ensures st.selected.None? ==> r == Step(st, [])
    ensures st.selected.Some? ==> var k := st.selected.value; var p := CrossPieces(st.shapes[k].points, click);
      && Valid(r.st)
      && r.st.shapes == SetPoints(st.shapes, k, p[0]) +
           [CopyWith(st.shapes[k], p[1]), CopyWith(st.shapes[k], p[2]), CopyWith(st.shapes[k], p[3])]
      && r.st.selected == Some(|st.shapes| + 2) && r.st.multi == []
      && r.st.armed == st.armed - {CrossCut} && r.st.prevCutpos.None?
  {
    match st.selected
    case None => Step(st, [])
    case Some(k) =>
      var p := CrossPieces(st.shapes[k].points, click);
      var cut := st.(shapes := SetPoints(st.shapes, k, p[0]), armed := st.armed - {CrossCut}, prevCutpos := None);
      var d := DeSelect(cut);
      var s := st.shapes[k];
      var added := [CopyWith(s, p[1]), CopyWith(s, p[2]), CopyWith(s, p[3])];
      Step(d.st.(shapes := d.st.shapes + added, selected := Some(|st.shapes| + 2)), d.events)
  }

  /**
   * A horizontal cut at the centre or at an accepted click leaves every
   * other shape alone and splits the selected box into two boxes that share
   * the cut line and together cover exactly the original box.
   */
  lemma HorizontalcutTiles(st: State, click: Option<Point>)
    requires Valid(st) && st.selected.Some? && CutClickOk(st.shapes[st.selected.value].points, click)
    ensures var k := st.selected.value; var r := Horizontalcut(st, click).st;
      && |r.shapes| == |st.shapes| + 1
      && (forall j | 0 <= j < |st.shapes| && j != k :: r.shapes[j] == st.shapes[j])
      && r.shapes[k].name == st.shapes[k].name && r.shapes[|st.shapes|].name == st.shapes[k].name
      && Hull(BBox(r.shapes[k].points), BBox(r.shapes[|st.shapes|].points)) == BBox(st.shapes[k].points)
      && BBox(r.shapes[k].points).y1 == BBox(r.shapes[|st.shapes|].points).y0
      && InteriorsDisjoint(BBox(r.shapes[k].points), BBox(r.shapes[|st.shapes|].points))
  {
    HorizontalTiles(st.shapes[st.selected.value].points, click);
  }

  /** The vertical cut splits the selected box into a left and a right box that tile it. */
  lemma VerticalcutTiles(st: State, click: Option<Point>)
    requires Valid(st) && st.selected.Some? && CutClickOk(st.shapes[st.selected.value].points, click)
    ensures var k := st.selected.value; var r := Verticalcut(st, click).st;
      && |r.shapes| == |st.shapes| + 1
      && (forall j | 0 <= j < |st.shapes| && j != k :: r.shapes[j] == st.shapes[j])
      && Hull(BBox(r.shapes[k].points), BBox(r.shapes[|st.shapes|].points)) == BBox(st.shapes[k].points)
      && BBox(r.shapes[k].points).x1 == BBox(r.shapes[|st.shapes|].points).x0
      && InteriorsDisjoint(BBox(r.shapes[k].points), BBox(r.shapes[|st.shapes|].points))
  {
    VerticalTiles(st.shapes[st.selected.value].points, click);
  }

  /** The cross cut turns the selected box into four quadrants that tile it; three shapes are appended. */
  lemma CrosscutTiles(st: State, click: Option<Point>)
    requires Valid(st) && st.selected.Some? && CutClickOk(st.shapes[st.selected.value].points, click)
    ensures var k := st.selected.value; var r := Crosscut(st, click).st; var n := |st.shapes|;
      && |r.shapes| == n + 3
      && (forall j | 0 <= j < n && j != k :: r.shapes[j] == st.shapes[j])
      && Hull(Hull(BBox(r.shapes[k].points), BBox(r.shapes[n].points)),
              Hull(BBox(r.shapes[n + 1].points), BBox(r.shapes[n + 2].points))) == BBox(st.shapes[k].points)
      && InteriorsDisjoint(BBox(r.shapes[k].points), BBox(r.shapes[n + 2].points))
      && InteriorsDisjoint(BBox(r.shapes[n].points), BBox(r.shapes[n + 1].points))
  {
    var p := CrossPieces(st.shapes[st.selected.value].points, click);
    CrossTiles(st.shapes[st.selected.value].points, click);
    assert InteriorsDisjoint(BBox(p[0]), BBox(p[3]));
    assert InteriorsDisjoint(BBox(p[1]), BBox(p[2]));
  }

  // ---------------------------------------------------------------------------
  // Click-resize (`Resizebox`) and cancelling (`cancelCutShape`)
  // ---------------------------------------------------------------------------

  /** `Resizebox` on the selected shape; the resize flag and the saved click are cleared either way. */
  function ResizeSelected(st: State, click: Option<Point>): (r: Step)
    requires Valid(st)
    ensures st.selected.None? ==> r == Step(st, [])
    ensures st.selected.Some? ==> var k := st.selected.value;
      && r.st.shapes == SetPoints(st.shapes, k, Resizebox(st.img, st.shapes[k].points, click))
      && r.st.armed == st.armed - {ResizeBox} && r.st.prevCutpos.None?
      && r.st.selected == st.selected && r.st.multi == st.multi && r.events == []
    ensures Valid(r.st)
  {
    match st.selected
    case None => Step(st, [])
    case Some(k) =>
      var q := Resizebox(st.img, st.shapes[k].points, click);
      Step(st.(shapes := SetPoints(st.shapes, k, q), armed := st.armed - {ResizeBox}, prevCutpos := None), [])
  }

  /** A resize at a click inside the image keeps every shape inside the image. */
  lemma ResizeSelectedInImage(st: State, c: Point)
    requires Valid(st) && ShapesInImage(st.shapes, st.img) && InImage(c, st.img)
    ensures ShapesInImage(ResizeSelected(st, Some(c)).st.shapes, st.img)
  {
    if st.selected.Some? {
      ResizeboxInImage(st.img, st.shapes[st.selected.value].points, c);
    }
  }

  /** `cancelCutShape`: disarm every cut and resize and forget the saved click. */
  function CancelCutShape(st: State): (r: State)
    ensures r.armed == {} && r.prevCutpos.None?
    ensures && r.img == st.img && r.shapes == st.shapes && r.selected == st.selected && r.multi == st.multi
            && r.offsets == st.offsets && r.prevPoint == st.prevPoint && r.groupMove == st.groupMove
            && r.clickmove == st.clickmove && r.autotracking == st.autotracking && r.undochecker == st.undochecker
            && r.trackStart == st.trackStart && r.arrowMode == st.arrowMode
  {
    st.(armed := {}, prevCutpos := None)
  }

  // ---------------------------------------------------------------------------
  // Merge (`mergeShape`)
  // ---------------------------------------------------------------------------

  /** The smallest index of a non-empty group. */
  function MinOf(s: seq<nat>): (m: nat)
    requires |s| > 0
    ensures m in s && forall x | x in s :: m <= x
  {
    if |s| == 1 then s[0]
    else
      var rest := MinOf(s[1..]);
      assert forall x | x in s :: x == s[0] || x in s[1..];
      if s[0] <= rest then s[0] else rest
  }

  /** The corners of the shapes at the given indices. */
  function QuadsAt(shapes: seq<Shape>, idx: seq<nat>): (r: seq<Quad>)
    requires ValidIndices(shapes, idx)
    ensures |r| == |idx| && forall k | 0 <= k < |idx| :: r[k] == shapes[idx[k]].points
  {
    seq(|idx|, k requires 0 <= k < |idx| => shapes[idx[k]].points)
  }

  /**
   * `mergeShape`: with two or more shapes in the group, the member with the
   * lowest list index gets the clockwise corners of the min/max box over
   * every corner of every member; it is returned with the new state.
   * Otherwise None.
   */
  function MergeShape(st: State): (r: Option<(State, nat)>)
    requires Valid(st)
    ensures r.None? <==> |st.multi| <= 1
    ensures r.Some? ==> var (s, pick) := r.value;
      && pick in st.multi && (forall x | x in st.multi :: pick <= x)
      && s == st.(shapes := SetPoints(st.shapes, pick, Corners(GroupBox(QuadsAt(st.shapes, st.multi)))))
  {
    if |st.multi| <= 1 then None
    else
      var pick := MinOf(st.multi);
      Some((st.(shapes := SetPoints(st.shapes, pick, Corners(GroupBox(QuadsAt(st.shapes, st.multi))))), pick))
  }

  /** Any box that holds every corner of every quad holds their group box. */
  lemma GroupBoxLeast(qs: seq<Quad>, b: Box)
    requires |qs| > 0
    requires forall k, i | 0 <= k < |qs| && 0 <= i < 4 :: InBox(qs[k][i], b)
    ensures ContainsBox(b, GroupBox(qs))
  {
    var g := GroupBox(qs);
    var k0, i0 :| 0 <= k0 < |qs| && 0 <= i0 < 4 && qs[k0][i0].x == g.x0;
    var k1, i1 :| 0 <= k1 < |qs| && 0 <= i1 < 4 && qs[k1][i1].y == g.y0;
    var k2, i2 :| 0 <= k2 < |qs| && 0 <= i2 < 4 && qs[k2][i2].x == g.x1;
    var k3, i3 :| 0 <= k3 < |qs| && 0 <= i3 < 4 && qs[k3][i3].y == g.y1;
    assert InBox(qs[k0][i0], b) && InBox(qs[k1][i1], b) && InBox(qs[k2][i2], b) && InBox(qs[k3][i3], b);
  }

  /**
   * The merged box holds every corner of every member, and it is the
   * smallest such box: any box holding all of them holds it too.
   */
  lemma MergeShapeTight(st: State, b: Box)
    requires Valid(st) && |st.multi| > 1
    requires forall k, i | 0 <= k < |st.multi| && 0 <= i < 4 :: InBox(st.shapes[st.multi[k]].points[i], b)
    ensures var (s, pick) := MergeShape(st).value;
      && IsNormalRect(s.shapes[pick].points)
      && (forall k, i | 0 <= k < |st.multi| && 0 <= i < 4 :: InBox(st.shapes[st.multi[k]].points[i], BBox(s.shapes[pick].points)))
      && ContainsBox(b, BBox(s.shapes[pick].points))
  {
    var qs := QuadsAt(st.shapes, st.multi);
    var g := GroupBox(qs);
    BBoxOfCorners(g);
    GroupBoxLeast(qs, b);
    var (s, pick) := MergeShape(st).value;
    assert s.shapes[pick].points == Corners(g);
    forall k, i | 0 <= k < |st.multi| && 0 <= i < 4
      ensures InBox(st.shapes[st.multi[k]].points[i], BBox(s.shapes[pick].points))
    {
      assert qs[k][i] == st.shapes[st.multi[k]].points[i];
    }
  }

  // ---------------------------------------------------------------------------
  // Rotation, click-move and arrow keys on the selected shape
  // ---------------------------------------------------------------------------

  /** `rotateShape` on the selected shape: the rotate signal fires exactly when the rotation applies. */
  function RotateSelected(st: State): (r: Step)
    requires Valid(st)
    ensures Valid(r.st) && |r.st.shapes| == |st.shapes|
    ensures r.events == [RotateUndo] || r.events == []
    ensures r.events != [] <==> st.selected.Some? && RotateShape(st.img, st.shapes[st.selected.value].points).Some?
    ensures r.events == [] ==> r.st == st
    ensures r.events != [] ==> var k := st.selected.value;
      r.st == st.(shapes := SetPoints(st.shapes, k, RotateShape(st.img, st.shapes[k].points).value))
  {
    match st.selected
    case None => Step(st, [])
    case Some(k) =>
      match RotateShape(st.img, st.shapes[k].points)
      case None => Step(st, [])
      case Some(q) => Step(st.(shapes := SetPoints(st.shapes, k, q)), [RotateUndo])
  }

  /** Rotating a clockwise rectangle twice gives back the original shapes. */
  lemma RotateSelectedTwice(st: State)
    requires Valid(st) && st.selected.Some?
    requires IsNormalRect(st.shapes[st.selected.value].points) && QuadInImage(st.shapes[st.selected.value].points, st.img)
    requires RotateSelected(st).events != []
    ensures RotateSelected(RotateSelected(st).st).st == st
  {
    var k := st.selected.value;
    var q := st.shapes[k].points;
    RotateTwice(st.img, q);
    var once := RotateSelected(st).st;
    assert once.shapes[k].points == RotateShape(st.img, q).value;
    assert SetPoints(once.shapes, k, q) == st.shapes;
  }

  /** `clickmoveShape` on the selected shape: the click-move signal fires exactly when a branch applies. */
  function ClickMoveSelected(st: State, pos: Point): (r: Step)
    requires Valid(st)
    ensures Valid(r.st) && |r.st.shapes| == |st.shapes|
    ensures r.events != [] <==> st.selected.Some? && ClickMoveShape(st.img, st.shapes[st.selected.value].points, pos).Some?
    ensures r.events == [] ==> r.st == st
    ensures r.events != [] ==> var k := st.selected.value;
      && r.events == [ClickmoveUndo]
      && r.st == st.(shapes := SetPoints(st.shapes, k, ClickMoveShape(st.img, st.shapes[k].points, pos).value))
  {
    match st.selected
    case None => Step(st, [])
    case Some(k) =>
      match ClickMoveShape(st.img, st.shapes[k].points, pos)
      case None => Step(st, [])
      case Some(q) => Step(st.(shapes := SetPoints(st.shapes, k, q)), [ClickmoveUndo])
  }

  /**
   * A click-move of a box that fits in the image always applies, keeps the
   * box's size and lands it inside the image.
   */
  lemma ClickMoveSelectedFits(st: State, pos: Point)
    requires Valid(st) && st.selected.Some?
    requires var q := st.shapes[st.selected.value].points; Width(q) <= st.img.W() && Height(q) <= st.img.H()
    ensures var k := st.selected.value; var r := ClickMoveSelected(st, pos);
      && r.events == [ClickmoveUndo]
      && QuadInImage(r.st.shapes[k].points, st.img)
      && Width(r.st.shapes[k].points) == Width(st.shapes[k].points)
      && Height(r.st.shapes[k].points) == Height(st.shapes[k].points)
  {
    ClickMoveClamps(st.img, st.shapes[st.selected.value].points, pos);
  }

  /**
   * An arrow key (`keyPressEvent` into `moveOnePixel`): with a selected
   * shape and autotracking off, nudge it in the tool bar's arrow mode; the
   * key-press signal carries the mode, the direction word and the pixel
   * count exactly when the shape changed.
   */
  function KeyPress(st: State, d: Direction, m: Modifier): (r: Step)
    requires Valid(st)
    ensures Valid(r.st) && |r.st.shapes| == |st.shapes|
    ensures st.selected.None? || st.autotracking ==> r == Step(st, [])
    ensures r.events == [] ==> r.st == st
    ensures st.selected.Some? && !st.autotracking ==> var k := st.selected.value;
      var n := MoveOnePixel(st.img, st.shapes[k].points, st.arrowMode, d, m, false);
      && r.st == st.(shapes := SetPoints(st.shapes, k, n.q))
      && (r.events != [] <==> n.changed)
      && (n.changed ==> r.events == [KeypressUndo(st.arrowMode, n.word, n.pixels.value)])
  {
    if st.selected.None? || st.autotracking then Step(st, [])
    else
      var k := st.selected.value;
      var n := MoveOnePixel(st.img, st.shapes[k].points, st.arrowMode, d, m, false);
      if !n.changed then Step(st, [])
      else Step(st.(shapes := SetPoints(st.shapes, k, n.q)), [KeypressUndo(st.arrowMode, n.word, n.pixels.value)])
  }

  /** Arrow keys never take a shape out of the image. */
  lemma KeyPressInImage(st: State, d: Direction, m: Modifier)
    requires Valid(st) && ShapesInImage(st.shapes, st.img)
    ensures ShapesInImage(KeyPress(st, d, m).st.shapes, st.img)
  {
    if st.selected.Some? && !st.autotracking {
      NudgeStaysInImage(st.img, st.shapes[st.selected.value].points, st.arrowMode, d, m, false);
    }
  }

  // ---------------------------------------------------------------------------
  // Autotracking drag (the autotracking part of `mouseMoveEvent`)
  // ---------------------------------------------------------------------------

  /**
   * A mouse move while autotracking a single selected shape: inside the box
   * the shape is dragged (`boundedMoveShape`); outside it, the box jumps to
   * be centred on the cursor when that fits (`trackingMagnetShape`), which
   * also resets the drag offsets and `prevPoint`.
   */
  function AutotrackingMove(st: State, pos: Point): (r: Step)
    requires Valid(st)
    ensures Valid(r.st) && |r.st.shapes| == |st.shapes| && r.events == []
    ensures r.st.selected == st.selected && r.st.multi == st.multi
  {
    if st.autotracking && !IsNull(st.prevPoint) && st.selected.Some? && |st.multi| == 1 then
      var k := st.selected.value;
      var q := st.shapes[k].points;
      if InBox(pos, BBox(q)) then
        var m := BoundedMoveShape(st.img, q, pos, st.prevPoint, st.offsets.0, st.offsets.1);
        Step(st.(shapes := SetPoints(st.shapes, k, m.q), prevPoint := m.prev), [])
      else
        match TrackingMagnetShape(st.img, q, pos)
        case None => Step(st, [])
        case Some(t) => Step(st.(shapes := SetPoints(st.shapes, k, t), offsets := CalculateOffsets(t, pos), prevPoint := pos), [])
    else Step(st, [])
  }

  /**
   * With drag offsets that match the selected box and `prevPoint`, an
   * autotracking move keeps every shape in the image and keeps the offsets
   * matching.
   */
  lemma AutotrackingMoveInImage(st: State, pos: Point)
    requires Valid(st) && ShapesInImage(st.shapes, st.img)
    requires st.selected.Some? ==> OffsetsOf(BBox(st.shapes[st.selected.value].points), st.prevPoint, st.offsets.0, st.offsets.1)
    ensures var r := AutotrackingMove(st, pos).st;
      && ShapesInImage(r.shapes, st.img)
      && (r.selected.Some? ==> OffsetsOf(BBox(r.shapes[r.selected.value].points), r.prevPoint, r.offsets.0, r.offsets.1))
  {
    if st.autotracking && !IsNull(st.prevPoint) && st.selected.Some? && |st.multi| == 1 {
      var k := st.selected.value;
      var q := st.shapes[k].points;
      if InBox(pos, BBox(q)) {
        QuadInImageIffBox(q, st.img);
        BoundedMoveShapeStaysInside(st.img, q, pos, st.prevPoint, st.offsets.0, st.offsets.1);
        var m := BoundedMoveShape(st.img, q, pos, st.prevPoint, st.offsets.0, st.offsets.1);
        SetPointsInImage(st.shapes, k, m.q, st.img);
      } else if TrackingMagnetShape(st.img, q, pos).Some? {
        SetPointsInImage(st.shapes, k, TrackingMagnetShape(st.img, q, pos).value, st.img);
      }
    }
  }

  /** Replacing one shape's corners by corners inside the image keeps the whole list inside. */
  lemma SetPointsInImage(shapes: seq<Shape>, k: nat, q: Quad, img: Image)
    requires k < |shapes| && ShapesInImage(shapes, img) && QuadInImage(q, img)
    ensures ShapesInImage(SetPoints(shapes, k, q), img)
  {
  }

  // ---------------------------------------------------------------------------
  // Mouse press routing (`mousePressEvent`)
  // ---------------------------------------------------------------------------

  datatype Button = LeftButton | RightButton | OtherButton

  /** Strictly inside the image, the test a click-move or resize click must pass. */
  predicate StrictlyInImage(p: Point, img: Image) { StrictlyInBox(p, ImageBox(img)) }

  /** The select-then-remember-the-click step shared by several branches. */
  function SelectAndRemember(st: State, pos: Point, hover: Option<nat>, vertexoff: bool): (r: Step)
    requires Valid(st) && (hover.Some? ==> hover.value < |st.shapes|)
    ensures Valid(r.st) && r.st.shapes == st.shapes && r.st.prevPoint == pos
    ensures r.st.armed == st.armed && r.st.prevCutpos == st.prevCutpos
    ensures r.events == (if DropsTracked(st, pos) then AutotrackingEnd(st) else [])
  {
    SelectShapePointPicks(st, pos, hover, vertexoff);
    SelectShapePointEvents(st, pos, hover, vertexoff);
    var s := SelectShapePoint(st, pos, hover, vertexoff);
    Step(s.st.(prevPoint := pos), s.events)
  }

  /**
   * `mousePressEvent`, in the source's order of tests. Left button: drawing
   * mode is not part of this model; an armed click-move moves the selected
   * box to a click strictly inside the image; an armed cut records a click
   * strictly inside the selected box; an armed resize records a click
   * strictly inside the image; Shift extends the group (or selects);
   * Ctrl on a group starts moving the whole group when the click is on one
   * of its boxes; otherwise the click selects. Right button in edit mode
   * selects.
   */
  function MousePress(st: State, button: Button, pos: Point, m: Modifier, drawing: bool, editing: bool,
                      hover: Option<nat>, vertexoff: bool): (r: Step)
    requires Valid(st) && (hover.Some? ==> hover.value < |st.shapes|)
    ensures Valid(r.st) && |r.st.shapes| == |st.shapes|
    ensures r.events != [] ==> st.selected.Some?
  {
    if button == LeftButton then
      if drawing then Step(st, [])
      else if st.clickmove then
        if StrictlyInImage(pos, st.img) then
          var c := ClickMoveSelected(st, pos);
          Step(c.st.(prevPoint := pos), c.events)
        else Step(st, [])
      else if HorizontalCut in st.armed || VerticalCut in st.armed || CrossCut in st.armed then
        if st.selected.Some? && StrictlyInBox(pos, BBox(st.shapes[st.selected.value].points)) then
          Step(st.(prevCutpos := Some(pos)), [])
        else Step(st, [])
      else if ResizeBox in st.armed then
        if st.selected.Some? && StrictlyInImage(pos, st.img) then Step(st.(prevCutpos := Some(pos)), [])
        else Step(st, [])
      else if m == ShiftModifier then
        if |st.multi| >= 1 then
          ShiftLoopEvents(st, pos, |st.shapes|);
          SelectShapePointShift(st, pos)
        else SelectAndRemember(st, pos, hover, vertexoff)
      else if m == ControlModifier then
        if |st.multi| > 1 && !IsNull(st.prevPoint) then
          if exists i | 0 <= i < |st.multi| :: InBox(pos, BBox(st.shapes[st.multi[i]].points)) then
            var offs := CalculateMultiOffsets(st.img, st.shapes, st.multi, pos).value;
            Step(st.(groupMove := true, prevPoint := pos, offsets := offs), [])
          else Step(st, [])
        else SelectAndRemember(st, pos, hover, vertexoff)
      else SelectAndRemember(st, pos, hover, vertexoff)
    else if button == RightButton && editing then SelectAndRemember(st, pos, hover, vertexoff)
    else Step(st, [])
  }

  /**
   * A plain left press with nothing armed, or a right press in edit mode,
   * selects; it emits the autotracking session's signal exactly when it
   * lands away from the tracked selected box, and nothing otherwise.
   */
  lemma MousePressEndsTracking(st: State, button: Button, pos: Point, editing: bool, hover: Option<nat>, vertexoff: bool)
    requires Valid(st) && (hover.Some? ==> hover.value < |st.shapes|)
    requires (button == LeftButton && !st.clickmove && st.armed == {}) || (button == RightButton && editing)
    ensures MousePress(st, button, pos, NoModifier, false, editing, hover, vertexoff).events
         == (if DropsTracked(st, pos) then AutotrackingEnd(st) else [])
  {
    if button == LeftButton {
      assert HorizontalCut !in st.armed && VerticalCut !in st.armed && CrossCut !in st.armed && ResizeBox !in st.armed;
    }
    assert MousePress(st, button, pos, NoModifier, false, editing, hover, vertexoff) == SelectAndRemember(st, pos, hover, vertexoff);
  }
  /**
   * The signals of a left shift-press with nothing armed: with a group of
   * one or more, those of the shift-click loop, which end the session only
   * when a tracked selection is paired with another shape; with an empty
   * group, those of a plain press.
   */
  lemma MousePressShiftEndsTracking(st: State, pos: Point, editing: bool, hover: Option<nat>, vertexoff: bool)
    requires Valid(st) && (hover.Some? ==> hover.value < |st.shapes|)
    requires !st.clickmove && st.armed == {}
    ensures MousePress(st, LeftButton, pos, ShiftModifier, false, editing, hover, vertexoff).events
         == if |st.multi| >= 1 then (if PairsTracked(st, pos, |st.shapes|) then AutotrackingEnd(st) else [])
            else (if DropsTracked(st, pos) then AutotrackingEnd(st) else [])
  {
    assert HorizontalCut !in st.armed && VerticalCut !in st.armed && CrossCut !in st.armed && ResizeBox !in st.armed;
    if |st.multi| >= 1 {
      ShiftLoopEvents(st, pos, |st.shapes|);
    }
  }

  /**
   * A left control-press on a group of two or more, with a previous point,
   * inside a member's box starts a group move: it sets `groupMove`, anchors
   * the drag at the press and stores the group boundary's offsets from it;
   * elsewhere it changes nothing.
   */
  lemma MousePressStartsGroupMove(st: State, pos: Point, editing: bool, hover: Option<nat>, vertexoff: bool)
    requires Valid(st) && (hover.Some? ==> hover.value < |st.shapes|)
    requires !st.clickmove && st.armed == {}
    requires |st.multi| > 1 && !IsNull(st.prevPoint)
    ensures var r := MousePress(st, LeftButton, pos, ControlModifier, false, editing, hover, vertexoff);
      if exists i | 0 <= i < |st.multi| :: InBox(pos, BBox(st.shapes[st.multi[i]].points)) then
        && r.events == [] && r.st.shapes == st.shapes && r.st.multi == st.multi
        && r.st.groupMove && r.st.prevPoint == pos
        && r.st.offsets == CalculateMultiOffsets(st.img, st.shapes, st.multi, pos).value
      else r == Step(st, [])
  {
    assert HorizontalCut !in st.armed && VerticalCut !in st.armed && CrossCut !in st.armed && ResizeBox !in st.armed;
  }

  /**
   * When the group lies in the image, the state a group-move press leaves
   * meets everything a group drag needs to keep every member in the image:
   * the stored offsets are those of the group boundary from the anchor,
   * and that boundary is an ordered box inside the image holding every
   * member's box.
   */
  lemma GroupMovePressReady(st: State, pos: Point, editing: bool, hover: Option<nat>, vertexoff: bool)
    requires Valid(st) && (hover.Some? ==> hover.value < |st.shapes|)
    requires !st.clickmove && st.armed == {}
    requires |st.multi| > 1 && !IsNull(st.prevPoint) && ShapesInImage(st.shapes, st.img)
    requires exists i | 0 <= i < |st.multi| :: InBox(pos, BBox(st.shapes[st.multi[i]].points))
    ensures var r := MousePress(st, LeftButton, pos, ControlModifier, false, editing, hover, vertexoff);
      var b := MultiShapeBoundary(st.img, st.shapes, st.multi).value;
      && r.st.groupMove
      && OffsetsOf(b, r.st.prevPoint, r.st.offsets.0, r.st.offsets.1) && Ordered(b) && BoxInImage(b, st.img)
      && ValidIndices(r.st.shapes, r.st.multi)
      && forall k | 0 <= k < |r.st.multi| :: ContainsBox(b, BBox(r.st.shapes[r.st.multi[k]].points))
  {
    MousePressStartsGroupMove(st, pos, editing, hover, vertexoff);
    MultiShapeBoundaryFits(st.img, st.shapes, st.multi);
  }


  /** While a cut, resize or click-move is armed, a left press never changes the selection or the armed modes. */
  lemma MousePressKeepsSelectionWhenArmed(st: State, pos: Point, m: Modifier, editing: bool,
                                          hover: Option<nat>, vertexoff: bool)
    requires Valid(st) && (hover.Some? ==> hover.value < |st.shapes|)
    requires st.clickmove || st.armed != {}
    ensures var r := MousePress(st, LeftButton, pos, m, false, editing, hover, vertexoff).st;
      r.selected == st.selected && r.multi == st.multi && r.armed == st.armed
  {
    var r := MousePress(st, LeftButton, pos, m, false, editing, hover, vertexoff);
    if st.clickmove {
      var c := ClickMoveSelected(st, pos);
      assert r.st == st || r.st == c.st.(prevPoint := pos);
    } else {
      var c :| c in st.armed;
      assert c.HorizontalCut? || c.VerticalCut? || c.CrossCut? || c.ResizeBox?;
      assert r.st == st || r.st == st.(prevCutpos := Some(pos));
    }
  }

  /**
   * A press saves a click only for an armed cut, strictly inside the
   * selected box, or for an armed resize, strictly inside the image.
   */
  lemma MousePressSavesOnlyAcceptedClicks(st: State, button: Button, pos: Point, m: Modifier, drawing: bool,
                                          editing: bool, hover: Option<nat>, vertexoff: bool)
    requires Valid(st) && (hover.Some? ==> hover.value < |st.shapes|)
    ensures var r := MousePress(st, button, pos, m, drawing, editing, hover, vertexoff).st;
      r.prevCutpos != st.prevCutpos ==>
        && r.prevCutpos == Some(pos) && st.selected.Some? && !st.clickmove
        && (if HorizontalCut in st.armed || VerticalCut in st.armed || CrossCut in st.armed
            then StrictlyInBox(pos, BBox(st.shapes[st.selected.value].points))
            else ResizeBox in st.armed && StrictlyInImage(pos, st.img))
  {
  }

  /** An armed click-move changes shapes only for a press strictly inside the image. */
  lemma MousePressClickMoveInside(st: State, pos: Point, m: Modifier, editing: bool, hover: Option<nat>, vertexoff: bool)
    requires Valid(st) && (hover.Some? ==> hover.value < |st.shapes|) && st.clickmove
    ensures var r := MousePress(st, LeftButton, pos, m, false, editing, hover, vertexoff);
      && (r.st.shapes != st.shapes ==> StrictlyInImage(pos, st.img))
      && (StrictlyInImage(pos, st.img) ==> r.events == ClickMoveSelected(st, pos).events && r.st.prevPoint == pos)
  {
  }
}
