/**
 * The canvas's editing state and its selection rules (libs/canvas.py):
 * `selectShape`, `deSelectShape`, `selectShapePoint`, the shift-click
 * toggle `selectShapePointShift` and the rubber band `dragSelectionShape`.
 *
 * A shape is identified by its index in the shape list; the single
 * selection is `selected` and the multi-selection is `multi`, a list of
 * indices in the order they were added.
 */
module Selection {
  import opened Wrappers
  import opened Geometry
  import opened Clamp
  import opened Drag
  import opened Nudge

  /** The hit tolerance around a selected box's corners (`epsilon`). */
  const Epsilon: real := 11.0

  /** The four click-armed edits; at most one is armed at a time. */
  datatype CutMode = HorizontalCut | VerticalCut | CrossCut | ResizeBox

  /**
   * The part of the canvas the editing operations read and write.
   * `prevPoint` is a Qt point, null when it is the origin; `trackStart` is
   * the corner list saved when autotracking starts (empty before that);
   * `undochecker` is `autotracking_undochecker`, raised while undo or redo
   * reloads the shapes.
   */
  datatype State = State(
    img: Image,
    shapes: seq<Shape>,
    selected: Option<nat>,
    multi: seq<nat>,
    offsets: (Point, Point),
    prevPoint: Point,
    groupMove: bool,
    armed: set<CutMode>,
    prevCutpos: Option<Point>,
    clickmove: bool,
    autotracking: bool,
    undochecker: bool,
    trackStart: seq<Point>,
    arrowMode: ArrowMode)

  /** The canvas signals that lead to a history entry. */
  datatype Event =
    | AutotrackingUndo
    | RotateUndo
    | ClickmoveUndo
    | KeypressUndo(mode: ArrowMode, word: string, pixels: nat)

  /** A new state and the signals emitted on the way, in order. */
  datatype Step = Step(st: State, events: seq<Event>)

  predicate NoDuplicates(s: seq<nat>) {
    forall i, j | 0 <= i < j < |s| :: s[i] != s[j]
  }

  /** The selected index, if any, names a shape. */
  predicate SelOk(st: State) {
    st.selected.Some? ==> st.selected.value < |st.shapes|
  }

  /**
   * The selection invariant every operation keeps: indices name shapes,
   * the group has no repeats, a one-member group is the selected shape,
   * a larger group has no single selection, and autotracking runs only
   * on a selected shape.
   */
  predicate Valid(st: State) {
    && SelOk(st)
    && ValidIndices(st.shapes, st.multi)
    && NoDuplicates(st.multi)
    && (|st.multi| == 1 ==> st.selected == Some(st.multi[0]))
    && (|st.multi| > 1 ==> st.selected.None?)
    && (st.autotracking ==> st.selected.Some?)
  }

  // ---------------------------------------------------------------------------
  // Autotracking bookkeeping (`autotrackingStart`, `autotrackingEnd`)
  // ---------------------------------------------------------------------------

  /** `autotrackingStart`: remember the selected shape's corners. */
  function AutotrackingStart(st: State): (r: State)
    requires SelOk(st)
    ensures st.selected.Some? ==> r.trackStart == st.shapes[st.selected.value].points
    ensures r.shapes == st.shapes && r.selected == st.selected && r.multi == st.multi
  {
    match st.selected
    case None => st
    case Some(k) => st.(trackStart := st.shapes[k].points)
  }

  /**
   * `autotrackingEnd`: signal a history entry when the selected shape
   * moved since autotracking started, unless undo or redo is running.
   */
  function AutotrackingEnd(st: State): (r: seq<Event>)
    requires SelOk(st) && st.selected.Some?
    ensures r == [] || r == [AutotrackingUndo]
    ensures r != [] <==> !st.undochecker && st.trackStart != st.shapes[st.selected.value].points
  {
    if st.undochecker then []
    else if st.trackStart != st.shapes[st.selected.value].points then [AutotrackingUndo]
    else []
  }

  /** Ending autotracking right after starting it records nothing. */
  lemma AutotrackingStillIsSilent(st: State)
    requires SelOk(st) && st.selected.Some?
    ensures AutotrackingEnd(AutotrackingStart(st)) == []
  {
  }

  // ---------------------------------------------------------------------------
  // Selecting and deselecting
  // ---------------------------------------------------------------------------

  /**
   * `deSelectShape`: empty the group and drop the single selection. When a
   * shape was selected during autotracking, autotracking ends first; the
   * window's selection-changed handler then switches autotracking off.
   */
  function DeSelect(st: State): (r: Step)
    requires SelOk(st)
    ensures r.st.selected.None? && r.st.multi == [] && !r.st.autotracking
    ensures r.st.shapes == st.shapes && r.st.img == st.img && r.st.armed == st.armed
    ensures r.st.prevCutpos == st.prevCutpos && r.st.undochecker == st.undochecker
    ensures r.events != [] <==> st.selected.Some? && st.autotracking && AutotrackingEnd(st) != []
    ensures Valid(r.st)
  {
    var cleared := st.(multi := []);
    match st.selected
    case None => Step(cleared.(autotracking := false), [])
    case Some(_) =>
      var events := if st.autotracking then AutotrackingEnd(st) else [];
      Step(cleared.(selected := None, autotracking := false), events)
  }

  /** `selectShape`: after a deselection, shape k is the selection and the whole group. */
  function SelectShape(st: State, k: nat): (r: Step)
    requires SelOk(st) && k < |st.shapes|
    ensures r.st.selected == Some(k) && r.st.multi == [k]
    ensures r.st.shapes == st.shapes && r.st.img == st.img && r.st.armed == st.armed && r.st.prevCutpos == st.prevCutpos
    ensures r.events == DeSelect(st).events
    ensures Valid(r.st)
  {
    var d := DeSelect(st);
    Step(d.st.(selected := Some(k), multi := [k]), d.events)
  }

  /** Deselecting twice emits nothing the second time and changes nothing more. */
  lemma DeSelectIdempotent(st: State)
    requires SelOk(st)
    ensures DeSelect(DeSelect(st).st) == Step(DeSelect(st).st, [])
  {
  }

  // ---------------------------------------------------------------------------
  // Hit testing
  // ---------------------------------------------------------------------------

  /** A click hits a shape when the shape is visible and contains the point. */
  predicate Hit(s: Shape, p: Point) { s.visible && ContainsPoint(s, p) }

  /** The topmost shape below index n hit by p: the loop over `reversed(self.shapes)`. */
  function TopmostBelow(shapes: seq<Shape>, p: Point, n: nat): (r: Option<nat>)
    requires n <= |shapes|
    ensures r.Some? ==> r.value < n && Hit(shapes[r.value], p)
    ensures r.Some? ==> forall j | r.value < j < n :: !Hit(shapes[j], p)
    ensures r.None? <==> forall j | 0 <= j < n :: !Hit(shapes[j], p)
  {
    if n == 0 then None
    else if Hit(shapes[n - 1], p) then Some(n - 1)
    else TopmostBelow(shapes, p, n - 1)
  }

  /** The topmost shape below index n hit by p, other than shape `other`. */
  function TopmostOtherBelow(shapes: seq<Shape>, p: Point, n: nat, other: nat): (r: Option<nat>)
    requires n <= |shapes|
    ensures r.Some? ==> r.value < n && r.value != other && Hit(shapes[r.value], p)
    ensures r.Some? ==> forall j | r.value < j < n && j != other :: !Hit(shapes[j], p)
    ensures r.None? <==> forall j | 0 <= j < n && j != other :: !Hit(shapes[j], p)
  {
    if n == 0 then None
    else if n - 1 != other && Hit(shapes[n - 1], p) then
      assert !(n - 1 != other ==> !Hit(shapes[n - 1], p));
      Some(n - 1)
    else TopmostOtherBelow(shapes, p, n - 1, other)
  }

  /**
   * `selectedShapeBoundary`: the point is in the closed box, or within
   * `eps` (on both axes) of one of its four corners.
   */
  function SelectedShapeBoundary(b: Box, eps: real, pos: Point): (r: bool)
    ensures r <==> (InBox(pos, b) ||
      exists i | 0 <= i < 4 :: Dist(pos.x, Corners(b)[i].x) <= eps && Dist(pos.y, Corners(b)[i].y) <= eps)
  {
    var c := Corners(b);
    assert c[0] == Point(b.x0, b.y0) && c[1] == Point(b.x1, b.y0) && c[2] == Point(b.x1, b.y1) && c[3] == Point(b.x0, b.y1);
    if b.x0 <= pos.x <= b.x1 && b.y0 <= pos.y <= b.y1 then true
    else if b.x0 - eps <= pos.x <= b.x0 + eps && b.y0 - eps <= pos.y <= b.y0 + eps then true
    else if b.x1 - eps <= pos.x <= b.x1 + eps && b.y0 - eps <= pos.y <= b.y0 + eps then true
    else if b.x0 - eps <= pos.x <= b.x0 + eps && b.y1 - eps <= pos.y <= b.y1 + eps then true
    else if b.x1 - eps <= pos.x <= b.x1 + eps && b.y1 - eps <= pos.y <= b.y1 + eps then true
    else false
  }

  /**
   * `selectShapePoint` for a plain click. `hover` is the shape whose vertex
   * the cursor is over (`hVertex`/`hShape`, found by distance tests that
   * are not part of this model) and `vertexoff` is `setVertexoffMode`.
   * A click on or near the selected box keeps the selection and only
   * recomputes the drag offsets; any other click deselects and then selects
   * the hovered shape, or else the topmost visible shape under the click.
   */
  function SelectShapePoint(st: State, point: Point, hover: Option<nat>, vertexoff: bool): (r: Step)
    requires SelOk(st) && (hover.Some? ==> hover.value < |st.shapes|)
  {
    if st.selected.Some? && SelectedShapeBoundary(BBox(st.shapes[st.selected.value].points), Epsilon, point) then
      var q := st.shapes[st.selected.value].points;
      if hover.Some? && !vertexoff then Step(st, [])
      else Step(st.(offsets := CalculateOffsets(q, point)), [])
    else
      var d := DeSelect(st);
      if hover.Some? then
        var s := SelectShape(d.st, hover.value);
        Step(s.st, d.events + s.events)
      else
        match TopmostBelow(st.shapes, point, |st.shapes|)
        case None => d
        case Some(k) =>
          var s := SelectShape(d.st, k);
          Step(s.st.(offsets := CalculateOffsets(st.shapes[k].points, point)), d.events + s.events)
  }

  /**
   * A click away from the selection, with no vertex under the cursor,
   * selects exactly the topmost visible shape containing the click (and
   * nothing when there is none); a click on or near the selected box keeps
   * the selection.
   */
  lemma SelectShapePointPicks(st: State, point: Point, hover: Option<nat>, vertexoff: bool)
    requires Valid(st) && (hover.Some? ==> hover.value < |st.shapes|)
    ensures var r := SelectShapePoint(st, point, hover, vertexoff);
      && Valid(r.st) && r.st.shapes == st.shapes && r.st.armed == st.armed && r.st.prevCutpos == st.prevCutpos
      && (st.selected.Some? && SelectedShapeBoundary(BBox(st.shapes[st.selected.value].points), Epsilon, point) ==>
            r.st.selected == st.selected && r.st.multi == st.multi)
      && (!(st.selected.Some? && SelectedShapeBoundary(BBox(st.shapes[st.selected.value].points), Epsilon, point)) ==>
            && (hover.Some? ==> r.st.selected == hover && r.st.multi == [hover.value])
            && (hover.None? ==> r.st.selected == TopmostBelow(st.shapes, point, |st.shapes|))
            && (hover.None? && r.st.selected.Some? ==>
                  var k := r.st.selected.value;
                  && Hit(st.shapes[k], point)
                  && (forall j | k < j < |st.shapes| :: !Hit(st.shapes[j], point))
                  && OffsetsOf(BBox(st.shapes[k].points), point, r.st.offsets.0, r.st.offsets.1)))
  {
    if st.selected.Some? && SelectedShapeBoundary(BBox(st.shapes[st.selected.value].points), Epsilon, point) {
      PicksNear(st, point, hover, vertexoff);
    } else if hover.Some? {
      PicksHover(st, point, hover.value, vertexoff);
    } else {
      PicksTopmost(st, point, vertexoff);
    }
  }

  /** A click on or near the selected box keeps the state apart from the drag offsets. */
  lemma PicksNear(st: State, point: Point, hover: Option<nat>, vertexoff: bool)
    requires Valid(st) && (hover.Some? ==> hover.value < |st.shapes|)
    requires st.selected.Some? && SelectedShapeBoundary(BBox(st.shapes[st.selected.value].points), Epsilon, point)
    ensures var r := SelectShapePoint(st, point, hover, vertexoff);
      r.st == st.(offsets := r.st.offsets) && Valid(r.st)
  {
  }

  /** Away from the selected box, a hovered shape is selected after a deselection. */
  lemma PicksHover(st: State, point: Point, h: nat, vertexoff: bool)
    requires Valid(st) && h < |st.shapes|
    requires !(st.selected.Some? && SelectedShapeBoundary(BBox(st.shapes[st.selected.value].points), Epsilon, point))
    ensures var r := SelectShapePoint(st, point, Some(h), vertexoff);
      r.st == SelectShape(DeSelect(st).st, h).st && r.events == DeSelect(st).events
  {
  }

  /**
   * Away from the selected box and with nothing hovered, the topmost
   * visible shape under the click is selected, with its drag offsets;
   * with none, nothing is selected.
   */
  lemma PicksTopmost(st: State, point: Point, vertexoff: bool)
    requires Valid(st)
    requires !(st.selected.Some? && SelectedShapeBoundary(BBox(st.shapes[st.selected.value].points), Epsilon, point))
    ensures var r := SelectShapePoint(st, point, None, vertexoff);
      && Valid(r.st) && r.st.shapes == st.shapes && r.st.armed == st.armed && r.st.prevCutpos == st.prevCutpos
      && r.st.selected == TopmostBelow(st.shapes, point, |st.shapes|)
      && (r.st.selected.Some? ==>
            var k := r.st.selected.value;
            && Hit(st.shapes[k], point)
            && (forall j | k < j < |st.shapes| :: !Hit(st.shapes[j], point))
            && OffsetsOf(BBox(st.shapes[k].points), point, r.st.offsets.0, r.st.offsets.1))
  {
    var d := DeSelect(st);
    match TopmostBelow(st.shapes, point, |st.shapes|)
    case None =>
    case Some(k) =>
      var s := SelectShape(d.st, k);
      assert SelectShapePoint(st, point, None, vertexoff) ==
        Step(s.st.(offsets := CalculateOffsets(st.shapes[k].points, point)), d.events + s.events);
  }

  /** A click away from the selected box while it is tracked: the click deselects and so ends the session. */
  predicate DropsTracked(st: State, point: Point)
    requires SelOk(st)
  {
    && st.selected.Some? && st.autotracking
    && !SelectedShapeBoundary(BBox(st.shapes[st.selected.value].points), Epsilon, point)
  }

  /**
   * The signals of a click are exactly those of ending the autotracking
   * session on the selected shape, when the click lands away from that
   * shape's box, whichever shape the click then selects; every other click
   * is silent.
   */
  lemma SelectShapePointEvents(st: State, point: Point, hover: Option<nat>, vertexoff: bool)
    requires Valid(st) && (hover.Some? ==> hover.value < |st.shapes|)
    ensures SelectShapePoint(st, point, hover, vertexoff).events == (if DropsTracked(st, point) then AutotrackingEnd(st) else [])
  {
    if !(st.selected.Some? && SelectedShapeBoundary(BBox(st.shapes[st.selected.value].points), Epsilon, point)) {
      DeSelectEvents(st);
      DeSelectIdempotent(st);
      var d := DeSelect(st);
      if hover.Some? {
        assert SelectShape(d.st, hover.value).events == [];
      } else if TopmostBelow(st.shapes, point, |st.shapes|).Some? {
        assert SelectShape(d.st, TopmostBelow(st.shapes, point, |st.shapes|).value).events == [];
      }
    }
  }

  /** Deselecting emits the session's entry exactly when a tracked shape was selected. */
  lemma DeSelectEvents(st: State)
    requires Valid(st)
    ensures DeSelect(st).events == (if st.selected.Some? && st.autotracking then AutotrackingEnd(st) else [])
  {
  }

  // ---------------------------------------------------------------------------
  // Shift-click (`selectShapePointShift`)
  // ---------------------------------------------------------------------------

  /** `list.remove`: drop the first occurrence of x. */
  function Remove(s: seq<nat>, x: nat): (r: seq<nat>)
    requires NoDuplicates(s)
    ensures NoDuplicates(r) && x !in r
    ensures forall y | y != x :: y in r <==> y in s
    ensures |r| == if x in s then |s| - 1 else |s|
  {
    if |s| == 0 then []
    else if s[0] == x then
      assert forall y | y in s[1..] :: y != x;
      s[1..]
    else
      var rest := Remove(s[1..], x);
      assert s[0] !in s[1..];
      assert s[0] !in rest;
      [s[0]] + rest
  }

  /**
   * The loop of `selectShapePointShift` over the shapes below index n, top
   * first. With a group of two or more, the first hit shape is added to the
   * group or removed from it; a group shrunk to one becomes a plain
   * selection. With a single selection, the first hit shape other than the
   * selected one joins it to form a group of two.
   */
  function ShiftLoop(st: State, p: Point, n: nat): (r: Step)
    requires Valid(st) && n <= |st.shapes|
    ensures Valid(r.st) && r.st.shapes == st.shapes && r.st.img == st.img && r.st.armed == st.armed
    ensures r.st.prevCutpos == st.prevCutpos
  {
    if n == 0 then Step(st, [])
    else
      var k := n - 1;
      if !Hit(st.shapes[k], p) then ShiftLoop(st, p, k)
      else if |st.multi| > 1 then
        if k !in st.multi then Step(st.(multi := st.multi + [k]), [])
        else
          var rest := Remove(st.multi, k);
          assert forall i | 0 <= i < |rest| :: rest[i] in st.multi;
          if |rest| == 1 then SelectShape(st.(multi := rest), rest[0])
          else Step(st.(multi := rest), [])
      else if |st.multi| == 1 then
        if k !in st.multi then
          var origin := st.multi[0];
          var d := DeSelect(st);
          Step(d.st.(multi := [origin, k]), d.events)
        else ShiftLoop(st, p, k)
      else ShiftLoop(st, p, k)
  }

  /**
   * A shift-click that pairs a tracked single selection with another shape
   * it hits: the pairing deselects first and so ends the session.
   */
  predicate PairsTracked(st: State, p: Point, n: nat)
    requires SelOk(st) && n <= |st.shapes|
  {
    && |st.multi| == 1 && st.selected.Some? && st.autotracking
    && TopmostOtherBelow(st.shapes, p, n, st.multi[0]).Some?
  }

  /**
   * The signals of a shift-click are exactly those of ending the
   * autotracking session, when the click pairs the tracked selection with
   * another shape; growing or shrinking a group, and a click that pairs
   * nothing, are silent.
   */
  lemma {:induction false} ShiftLoopEvents(st: State, p: Point, n: nat)
    requires Valid(st) && n <= |st.shapes|
    ensures ShiftLoop(st, p, n).events == (if PairsTracked(st, p, n) then AutotrackingEnd(st) else [])
    ensures ShiftLoop(st, p, n).events != [] ==> st.selected.Some? && st.autotracking
  {
    if n == 0 {
    } else if !Hit(st.shapes[n - 1], p) {
      ShiftLoopEvents(st, p, n - 1);
      if |st.multi| == 1 {
        ShiftLoopSkipsSingle(st, p, n);
      }
    } else if |st.multi| == 1 {
      if n - 1 in st.multi {
        ShiftLoopEvents(st, p, n - 1);
        ShiftLoopSkipsSingle(st, p, n);
      } else {
        ShiftLoopPairsSingle(st, p, n);
        DeSelectEvents(st);
      }
    } else if |st.multi| == 0 {
      ShiftLoopEvents(st, p, n - 1);
    }
  }

  function SelectShapePointShift(st: State, p: Point): (r: Step)
    requires Valid(st)
    ensures Valid(r.st) && r.st.shapes == st.shapes && r.st.armed == st.armed && r.st.prevCutpos == st.prevCutpos
  {
    ShiftLoop(st, p, |st.shapes|)
  }

  /**
   * Shift-click on a group of two or more toggles the topmost visible shape
   * under the click: a member leaves the group, any other shape joins it at
   * the end; nothing else changes membership. A miss changes nothing.
   */
  lemma {:induction false} ShiftClickToggles(st: State, p: Point, n: nat)
    requires Valid(st) && n <= |st.shapes| && |st.multi| > 1
    ensures var r := ShiftLoop(st, p, n);
      match TopmostBelow(st.shapes, p, n)
      case None => r == Step(st, [])
      case Some(t) =>
        && (t in r.st.multi <==> t !in st.multi)
        && (forall y | y != t :: y in r.st.multi <==> y in st.multi)
        && (t !in st.multi ==> r.st.multi == st.multi + [t])
  {
    if n > 0 && !Hit(st.shapes[n - 1], p) {
      ShiftClickToggles(st, p, n - 1);
    }
  }

  /**
   * Shift-click on a single selection pairs it with the topmost visible
   * shape under the click other than itself: the group becomes
   * [selected, that shape] with no single selection. A click that hits
   * nothing else changes nothing.
   */
  lemma {:induction false} ShiftClickPairs(st: State, p: Point, n: nat)
    requires Valid(st) && n <= |st.shapes| && |st.multi| == 1
    ensures TopmostOtherBelow(st.shapes, p, n, st.multi[0]).None? ==> ShiftLoop(st, p, n) == Step(st, [])
    ensures TopmostOtherBelow(st.shapes, p, n, st.multi[0]).Some? ==>
      && ShiftLoop(st, p, n).st.multi == [st.multi[0], TopmostOtherBelow(st.shapes, p, n, st.multi[0]).value]
      && ShiftLoop(st, p, n).st.selected.None?
  {
    if n == 0 {
    } else if n - 1 == st.multi[0] || !Hit(st.shapes[n - 1], p) {
      ShiftClickPairs(st, p, n - 1);
      ShiftLoopSkipsSingle(st, p, n);
    } else {
      ShiftLoopPairsSingle(st, p, n);
    }
  }

  /** With a single selection, the loop passes over the selected shape and over a missed shape. */
  lemma ShiftLoopSkipsSingle(st: State, p: Point, n: nat)
    requires Valid(st) && 0 < n <= |st.shapes| && |st.multi| == 1
    requires n - 1 == st.multi[0] || !Hit(st.shapes[n - 1], p)
    ensures ShiftLoop(st, p, n) == ShiftLoop(st, p, n - 1)
    ensures TopmostOtherBelow(st.shapes, p, n, st.multi[0]) == TopmostOtherBelow(st.shapes, p, n - 1, st.multi[0])
  {
  }

  /** With a single selection, the first other shape hit forms the pair and clears the single selection. */
  lemma ShiftLoopPairsSingle(st: State, p: Point, n: nat)
    requires Valid(st) && 0 < n <= |st.shapes| && |st.multi| == 1
    requires n - 1 != st.multi[0] && Hit(st.shapes[n - 1], p)
    ensures ShiftLoop(st, p, n).st.multi == [st.multi[0], n - 1] && ShiftLoop(st, p, n).st.selected.None?
    ensures TopmostOtherBelow(st.shapes, p, n, st.multi[0]) == Some(n - 1)
  {
  }

  // ---------------------------------------------------------------------------
  // Rubber-band selection (`dragSelectionShape`)
  // ---------------------------------------------------------------------------

  /** Python's `int()` on a float: truncation toward zero. */
  function Trunc(v: real): int {
    if v >= 0.0 then v.Floor else -((-v).Floor)
  }

  /** `set(range(lo, hi))`. */
  function RangeSet(lo: int, hi: int): (r: set<int>)
    ensures forall i :: i in r <==> lo <= i < hi
    decreases hi - lo
  {
    if lo >= hi then {} else {lo} + RangeSet(lo + 1, hi)
  }

  /** `set(range(int(a), int(b)))`. */
  function IntRange(a: real, b: real): set<int> {
    RangeSet(Trunc(a), Trunc(b))
  }

  function IMax(a: int, b: int): int { if a >= b then a else b }

  function IMin(a: int, b: int): int { if a <= b then a else b }

  /** Two half-open integer ranges overlap exactly when the larger start lies below the smaller end. */
  lemma IntRangesMeet(a: real, b: real, c: real, d: real)
    ensures IntRange(a, b) * IntRange(c, d) != {} <==> IMax(Trunc(a), Trunc(c)) < IMin(Trunc(b), Trunc(d))
  {
    var lo := IMax(Trunc(a), Trunc(c));
    if lo < IMin(Trunc(b), Trunc(d)) {
      assert lo in IntRange(a, b) * IntRange(c, d);
    }
  }

  /** `range(int(a), int(b))` and `range(int(c), int(d))` share an integer. */
  predicate RangesMeet(a: real, b: real, c: real, d: real) {
    IMax(Trunc(a), Trunc(c)) < IMin(Trunc(b), Trunc(d))
  }

  /**
   * The rubber band from p1 to p2 catches a visible shape when their
   * integer x ranges and integer y ranges both overlap.
   */
  predicate DragHit(s: Shape, p1: Point, p2: Point) {
    var b := BBox(s.points);
    && s.visible
    && RangesMeet(Min(p1.x, p2.x), Max(p1.x, p2.x), b.x0, b.x1)
    && RangesMeet(Min(p1.y, p2.y), Max(p1.y, p2.y), b.y0, b.y1)
  }

  /** The catch test is the set-intersection test of `dragSelectionShape`, read literally. */
  lemma DragHitIsSetIntersection(s: Shape, p1: Point, p2: Point)
    ensures var b := BBox(s.points);
      DragHit(s, p1, p2) <==>
        && s.visible
        && IntRange(Min(p1.x, p2.x), Max(p1.x, p2.x)) * IntRange(b.x0, b.x1) != {}
        && IntRange(Min(p1.y, p2.y), Max(p1.y, p2.y)) * IntRange(b.y0, b.y1) != {}
  {
    var b := BBox(s.points);
    IntRangesMeet(Min(p1.x, p2.x), Max(p1.x, p2.x), b.x0, b.x1);
    IntRangesMeet(Min(p1.y, p2.y), Max(p1.y, p2.y), b.y0, b.y1);
  }

  /** The caught shapes from index k on that are not already in group m, in list order. */
  function NewHits(shapes: seq<Shape>, p1: Point, p2: Point, k: nat, m: seq<nat>): seq<nat>
    requires k <= |shapes|
    decreases |shapes| - k
  {
    if k == |shapes| then []
    else (if DragHit(shapes[k], p1, p2) && k !in m then [k] else []) + NewHits(shapes, p1, p2, k + 1, m)
  }

  /** Every member of `NewHits` is a caught shape from k on that is outside the group. */
  lemma {:induction false} NewHitsSound(shapes: seq<Shape>, p1: Point, p2: Point, k: nat, m: seq<nat>)
    requires k <= |shapes|
    ensures forall j | j in NewHits(shapes, p1, p2, k, m) :: k <= j < |shapes| && j !in m && DragHit(shapes[j], p1, p2)
    decreases |shapes| - k
  {
    if k < |shapes| {
      NewHitsSound(shapes, p1, p2, k + 1, m);
    }
  }

  /** Every caught shape from k on that is outside the group is in `NewHits`. */
  lemma {:induction false} NewHitsComplete(shapes: seq<Shape>, p1: Point, p2: Point, k: nat, m: seq<nat>)
    requires k <= |shapes|
    ensures forall j | k <= j < |shapes| && DragHit(shapes[j], p1, p2) && j !in m :: j in NewHits(shapes, p1, p2, k, m)
    decreases |shapes| - k
  {
    if k < |shapes| {
      NewHitsComplete(shapes, p1, p2, k + 1, m);
    }
  }

  /** Adding an index below k to the group does not change which later shapes are new. */
  lemma {:induction false} NewHitsIgnoresLower(shapes: seq<Shape>, p1: Point, p2: Point, k: nat, m: seq<nat>, x: nat)
    requires k <= |shapes| && x < k
    ensures NewHits(shapes, p1, p2, k, m + [x]) == NewHits(shapes, p1, p2, k, m)
    decreases |shapes| - k
  {
    if k < |shapes| {
      var hit := DragHit(shapes[k], p1, p2);
      assert (k in m + [x]) <==> (k in m);
      NewHitsIgnoresLower(shapes, p1, p2, k + 1, m, x);
      assert NewHits(shapes, p1, p2, k, m + [x])
          == (if hit && k !in m + [x] then [k] else []) + NewHits(shapes, p1, p2, k + 1, m + [x]);
      assert NewHits(shapes, p1, p2, k, m)
          == (if hit && k !in m then [k] else []) + NewHits(shapes, p1, p2, k + 1, m);
    }
  }

  /**
   * What `dragSelectionShape` does with one caught shape k: it joins a
   * group of two or more, pairs with a single selection, or becomes the
   * selection when nothing is selected (and `prevPoint` moves to p2).
   * Either way k ends up in the group, after the members already there.
   */
  function DragCatch(st: State, p2: Point, k: nat): (r: Step)
    requires Valid(st) && k < |st.shapes|
    ensures Valid(r.st) && r.st.shapes == st.shapes && r.st.img == st.img && r.st.armed == st.armed
    ensures r.st.multi == if k in st.multi then st.multi else st.multi + [k]
  {
    if |st.multi| > 1 then
      if k in st.multi then Step(st, []) else Step(st.(multi := st.multi + [k]), [])
    else if |st.multi| == 1 then
      if k in st.multi then Step(st, [])
      else
        var origin := st.multi[0];
        var d := DeSelect(st);
        Step(d.st.(multi := [origin, k]), d.events)
    else
      var s := SelectShape(st, k);
      Step(s.st.(prevPoint := p2), s.events)
  }

  /** The loop of `dragSelectionShape` over the shapes from index k on, in list order. */
  function DragLoop(st: State, p1: Point, p2: Point, k: nat): (r: Step)
    requires Valid(st) && k <= |st.shapes|
    ensures Valid(r.st) && r.st.shapes == st.shapes && r.st.img == st.img && r.st.armed == st.armed
    decreases |st.shapes| - k
  {
    if k == |st.shapes| then Step(st, [])
    else if !DragHit(st.shapes[k], p1, p2) then DragLoop(st, p1, p2, k + 1)
    else
      var s1 := DragCatch(st, p2, k);
      var rest := DragLoop(s1.st, p1, p2, k + 1);
      Step(rest.st, s1.events + rest.events)
  }

  function DragSelectionShape(st: State, p1: Point, p2: Point): (r: Step)
    requires Valid(st)
    ensures Valid(r.st) && r.st.shapes == st.shapes
  {
    DragLoop(st, p1, p2, 0)
  }

  lemma AppendAssoc(a: seq<nat>, b: seq<nat>, c: seq<nat>)
    ensures (a + b) + c == a + (b + c)
  {
  }

  /** From shape k on, the rubber band appends the new catches to the group in list order. */
  lemma {:induction false} DragLoopAppends(st: State, p1: Point, p2: Point, k: nat)
    requires Valid(st) && k <= |st.shapes|
    ensures DragLoop(st, p1, p2, k).st.multi == st.multi + NewHits(st.shapes, p1, p2, k, st.multi)
    decreases |st.shapes| - k
  {
    if k < |st.shapes| {
      if !DragHit(st.shapes[k], p1, p2) {
        DragLoopAppends(st, p1, p2, k + 1);
      } else {
        var s1 := DragCatch(st, p2, k).st;
        assert DragLoop(st, p1, p2, k).st == DragLoop(s1, p1, p2, k + 1).st;
        DragLoopAppends(s1, p1, p2, k + 1);
        var later := NewHits(st.shapes, p1, p2, k + 1, st.multi);
        if k !in st.multi {
          NewHitsIgnoresLower(st.shapes, p1, p2, k + 1, st.multi, k);
          assert NewHits(st.shapes, p1, p2, k, st.multi) == [k] + later;
          AppendAssoc(st.multi, [k], later);
        } else {
          assert NewHits(st.shapes, p1, p2, k, st.multi) == later;
        }
      }
    }
  }

  /** The rubber-band result over the whole list: old members first, then the new catches in list order. */
  lemma DragSelectionAppends(st: State, p1: Point, p2: Point)
    requires Valid(st)
    ensures var r := DragSelectionShape(st, p1, p2);
      && r.st.multi == st.multi + NewHits(st.shapes, p1, p2, 0, st.multi)
      && (|r.st.multi| == 1 ==> r.st.selected == Some(r.st.multi[0]))
      && (|r.st.multi| > 1 ==> r.st.selected.None?)
  {
    DragLoopAppends(st, p1, p2, 0);
  }
}
