/**
 * Arrow-key nudges of libs/canvas.py (`vertexPosition`, `moveOnePixel`):
 * move the selected box, grow it on the arrow's side, or shrink it from
 * the opposite side, by 1, 10 or 100 pixels.
 */
module Nudge {
  import opened Wrappers
  import opened Geometry
  import opened Clamp

  // ---------------------------------------------------------------------------
  // Finding the corners (`vertexPosition`)
  // ---------------------------------------------------------------------------

  /**
   * The corner role of vertex i, decided in the source's order:
   * 0 top-left, 1 top-right, 2 bottom-right, 3 bottom-left; None when the
   * vertex is at none of the bounding box's corners.
   */
  function Category(q: Quad, i: nat): Option<nat>
    requires i < 4
  {
    var b := BBox(q);
    if q[i].x == b.x0 && q[i].y == b.y0 then Some(0)
    else if q[i].x == b.x1 && q[i].y == b.y0 then Some(1)
    else if q[i].x == b.x1 && q[i].y == b.y1 then Some(2)
    else if q[i].x == b.x0 && q[i].y == b.y1 then Some(3)
    else None
  }

  /**
   * The slots after the loop of `vertexPosition` has looked at the vertices
   * below i: each filled slot holds the last of those vertices in its
   * role, and a slot stays empty only while no such vertex has that role.
   */
  predicate Filled(q: Quad, i: nat, acc: seq<Option<nat>>)
    requires i <= 4
  {
    && |acc| == 4
    && (forall role | 0 <= role < 4 ::
          acc[role].Some? ==> acc[role].value < i && Category(q, acc[role].value) == Some(role))
    && (forall role, j | 0 <= role < 4 && 0 <= j < i :: Category(q, j) == Some(role) ==> acc[role].Some?)
    && (forall role, j | 0 <= role < 4 && acc[role].Some? && acc[role].value < j < i :: Category(q, j) != Some(role))
  }

  /** A vertex in no corner leaves the slots as they were. */
  lemma FilledSkip(q: Quad, i: nat, acc: seq<Option<nat>>)
    requires i < 4 && Filled(q, i, acc) && Category(q, i).None?
    ensures Filled(q, i + 1, acc)
  {
  }

  /** A vertex in a corner takes that corner's slot. */
  lemma FilledStep(q: Quad, i: nat, acc: seq<Option<nat>>, role: nat)
    requires i < 4 && Filled(q, i, acc) && Category(q, i) == Some(role)
    ensures role < 4 && Filled(q, i + 1, acc[role := Some(i)])
  {
    var b := BBox(q);
    assert role < 4;
  }

  /** The loop of `vertexPosition` from vertex i on, with the slots filled so far in `acc`. */
  function VertexPositionFrom(q: Quad, i: nat, acc: seq<Option<nat>>): (r: seq<Option<nat>>)
    requires i <= 4 && Filled(q, i, acc)
    ensures Filled(q, 4, r)
    decreases 4 - i
  {
    if i == 4 then acc
    else
      match Category(q, i)
      case None =>
        FilledSkip(q, i, acc);
        VertexPositionFrom(q, i + 1, acc)
      case Some(role) =>
        FilledStep(q, i, acc, role);
        VertexPositionFrom(q, i + 1, acc[role := Some(i)])
  }


  /**
   * `vertexPosition`: for each corner role, the index of a vertex sitting
   * at that corner of the bounding box (the last one, if several), or None.
   */
  function VertexPosition(q: Quad): (r: seq<Option<nat>>)
    ensures |r| == 4
    ensures forall role | 0 <= role < 4 ::
      r[role].Some? ==> r[role].value < 4 && Category(q, r[role].value) == Some(role)
    ensures forall role | 0 <= role < 4 :: r[role].None? ==> forall j | 0 <= j < 4 :: Category(q, j) != Some(role)
    ensures forall role, j | 0 <= role < 4 && r[role].Some? && r[role].value < j < 4 :: Category(q, j) != Some(role)
  {
    VertexPositionFrom(q, 0, [None, None, None, None])
  }

  /** The four corner indices, when `vertexPosition` finds all of them. */
  datatype CornerIdx = CornerIdx(tl: nat, tr: nat, br: nat, bl: nat)

  predicate Distinct(c: CornerIdx) {
    && c.tl < 4 && c.tr < 4 && c.br < 4 && c.bl < 4
    && c.tl != c.tr && c.tl != c.br && c.tl != c.bl && c.tr != c.br && c.tr != c.bl && c.br != c.bl
  }

  /** The indices name the four corners of the bounding box. */
  predicate CornersAt(q: Quad, c: CornerIdx) {
    var b := BBox(q);
    && Distinct(c)
    && q[c.tl] == Point(b.x0, b.y0) && q[c.tr] == Point(b.x1, b.y0)
    && q[c.br] == Point(b.x1, b.y1) && q[c.bl] == Point(b.x0, b.y1)
  }

  function Identify(q: Quad): (r: Option<CornerIdx>)
    ensures r.Some? ==> SlotsHold(VertexPosition(q), r.value)
    ensures r.None? ==> exists role | 0 <= role < 4 :: VertexPosition(q)[role].None?
    ensures r.Some? ==> var c := r.value; var b := BBox(q);
      && c.tl < 4 && c.tr < 4 && c.br < 4 && c.bl < 4
      && q[c.tl] == Point(b.x0, b.y0) && q[c.tr] == Point(b.x1, b.y0)
      && q[c.br] == Point(b.x1, b.y1) && q[c.bl] == Point(b.x0, b.y1)
  {
    var v := VertexPosition(q);
    if v[0].Some? && v[1].Some? && v[2].Some? && v[3].Some? then
      CategoryCorner(q, v[0].value);
      CategoryCorner(q, v[1].value);
      CategoryCorner(q, v[2].value);
      CategoryCorner(q, v[3].value);
      Some(CornerIdx(v[0].value, v[1].value, v[2].value, v[3].value))
    else None
  }

  /** A vertex's category names the corner of the bounding box it sits at. */
  lemma CategoryCorner(q: Quad, i: nat)
    requires i < 4
    ensures var b := BBox(q);
      && (Category(q, i) == Some(0) ==> q[i] == Point(b.x0, b.y0))
      && (Category(q, i) == Some(1) ==> q[i] == Point(b.x1, b.y0))
      && (Category(q, i) == Some(2) ==> q[i] == Point(b.x1, b.y1))
      && (Category(q, i) == Some(3) ==> q[i] == Point(b.x0, b.y1))
  {
  }

  /** The corners of a box with positive width and height are always found. */
  lemma IdentifyAxisRect(q: Quad)
    requires IsAxisRect(q) && Width(q) > 0.0 && Height(q) > 0.0
    ensures Identify(q).Some?
  {
    AxisRectPositions(q);
    var v := VertexPosition(q);
    assert v[0].Some? && v[1].Some? && v[2].Some? && v[3].Some?;
  }

  /** In a non-degenerate axis-aligned rectangle every corner role is found. */
  lemma AxisRectPositions(q: Quad)
    requires IsAxisRect(q) && Width(q) > 0.0 && Height(q) > 0.0
    ensures forall role | 0 <= role < 4 :: VertexPosition(q)[role].Some?
  {
    var v := VertexPosition(q);
    var cats := AxisRectCategories(q);
    forall role | 0 <= role < 4 ensures v[role].Some? {
      assert Category(q, cats[role]) == Some(role);
    }
  }

  /** In a non-degenerate axis-aligned rectangle every corner role is held by some vertex. */
  lemma AxisRectCategories(q: Quad) returns (cats: seq<nat>)
    requires IsAxisRect(q) && Width(q) > 0.0 && Height(q) > 0.0
    ensures |cats| == 4 && forall role | 0 <= role < 4 :: cats[role] < 4 && Category(q, cats[role]) == Some(role)
  {
    var a, b, c, d := q[0].x, q[1].x, q[0].y, q[2].y;
    assert BBox(q) == Box(Min(a, b), Min(c, d), Max(a, b), Max(c, d));
    if a < b && c < d {
      cats := [0, 1, 2, 3];
    } else if a < b {
      cats := [3, 2, 1, 0];
    } else if c < d {
      cats := [1, 0, 3, 2];
    } else {
      cats := [2, 3, 0, 1];
    }
  }

  /** Found corners are four different vertices, so they name all four. */
  lemma IdentifyDistinct(q: Quad)
    requires Identify(q).Some?
    ensures Distinct(Identify(q).value) && CornersAt(q, Identify(q).value)
    ensures Width(q) > 0.0 && Height(q) > 0.0
  {
    var c := Identify(q).value;
    assert Category(q, c.tl) == Some(0) && Category(q, c.tr) == Some(1);
    assert Category(q, c.br) == Some(2) && Category(q, c.bl) == Some(3);
  }

  // ---------------------------------------------------------------------------
  // Nudging (`moveOnePixel`, `moveOutOfBound`)
  // ---------------------------------------------------------------------------

  /** The arrow-key mode selected in the tool bar ("Move", "Expansion", anything else: reduction). */
  datatype ArrowMode = MoveMode | Expansion | Reduction

  datatype Direction = Left | Right | Up | Down

  /** The keyboard modifier held with the arrow key. */
  datatype Modifier = NoModifier | ShiftModifier | ControlModifier | OtherModifier

  /** The step: 10 with Shift alone, 100 with Ctrl alone, 1 otherwise. */
  function Step(m: Modifier): (r: real)
    ensures r == 1.0 || r == 10.0 || r == 100.0
  {
    match m
    case ShiftModifier => 10.0
    case ControlModifier => 100.0
    case _ => 1.0
  }

  predicate Horizontal(d: Direction) { d == Left || d == Right }

  function Opposite(d: Direction): (r: Direction)
    ensures r != d && Horizontal(r) == Horizontal(d)
  {
    match d
    case Left => Right
    case Right => Left
    case Up => Down
    case Down => Up
  }

  /** The direction word recorded for the history entry. */
  function DirectionWord(d: Direction): string {
    match d
    case Left => "왼쪽"
    case Right => "오른쪽"
    case Up => "위쪽"
    case Down => "아래쪽"
  }

  /** The full step as a vector: negative towards left/up. */
  function StepVector(d: Direction, step: real): Point {
    match d
    case Left => Point(-step, 0.0)
    case Right => Point(step, 0.0)
    case Up => Point(0.0, -step)
    case Down => Point(0.0, step)
  }

  /** The two corners on the arrow's side (the first list of `directionVar`). */
  function ActiveEdge(c: CornerIdx, d: Direction): (nat, nat) {
    match d
    case Left => (c.tl, c.bl)
    case Right => (c.tr, c.br)
    case Up => (c.tl, c.tr)
    case Down => (c.br, c.bl)
  }

  /** The two corners on the opposite side (the second list of `directionVar`). */
  function OppositeEdge(c: CornerIdx, d: Direction): (nat, nat) {
    ActiveEdge(c, Opposite(d))
  }

  /**
   * What a nudge did: the new corners, whether anything changed (the
   * `keypressUndo` signal fires exactly then), the direction word, when
   * something changed the recorded pixel count, and whether the source
   * raises instead (see `NudgeFound`).
   */
  datatype NudgeResult = NudgeResult(q: Quad, changed: bool, word: string, pixels: Option<nat>, raised: bool)

  /**
   * The delta of a move or expansion: the full step when it keeps every
   * corner in the image, otherwise the distance left to the edge the arrow
   * points at (when that distance is positive), otherwise None.
   */
  function MoveDelta(img: Image, q: Quad, c: CornerIdx, d: Direction, step: real): Option<Point>
    requires c.tl < 4 && c.tr < 4 && c.br < 4 && c.bl < 4
  {
    if !MoveOutOfBound(img, q, StepVector(d, step)) then Some(StepVector(d, step))
    else if d == Left && q[c.tl].x - step < 0.0 && q[c.tl].x > 0.0 then Some(Point(-q[c.tl].x, 0.0))
    else if d == Right && q[c.tr].x + step > img.W() && q[c.tr].x < img.W() then Some(Point(img.W() - q[c.tr].x, 0.0))
    else if d == Up && q[c.tl].y - step < 0.0 && q[c.tl].y > 0.0 then Some(Point(0.0, -q[c.tl].y))
    else if d == Down && q[c.bl].y + step > img.H() && q[c.bl].y < img.H() then Some(Point(0.0, img.H() - q[c.bl].y))
    else None
  }

  /** Adds `d` to the two vertices of an edge. */
  function MoveEdge(q: Quad, e: (nat, nat), d: Point): (r: Quad)
    requires e.0 < 4 && e.1 < 4 && e.0 != e.1
    ensures r[e.0] == Add(q[e.0], d) && r[e.1] == Add(q[e.1], d)
    ensures forall i | 0 <= i < 4 && i != e.0 && i != e.1 :: r[i] == q[i]
  {
    q[e.0 := Add(q[e.0], d)][e.1 := Add(q[e.1], d)]
  }

  /** |v| truncated to an integer, as `int(abs(v))`. */
  function Pixels(v: real): nat {
    if v >= 0.0 then v.Floor else (-v).Floor
  }

  /**
   * The corner update of `moveOnePixel` once the corners are known: the new
   * corners and the applied delta, or None when the key changes nothing.
   */
  function NudgeCorners(img: Image, q: Quad, c: CornerIdx, mode: ArrowMode, d: Direction, step: real, reversed: bool)
    : Option<(Quad, Point)>
    requires Distinct(c)
  {
    if mode != Reduction then
      match MoveDelta(img, q, c, d, step)
      case None => None
      case Some(delta) =>
        Some((if mode == MoveMode then Translate(q, delta) else MoveEdge(q, ActiveEdge(c, d), delta), delta))
    else
      var room := if Horizontal(d) then q[c.tl].x + step < q[c.tr].x else q[c.tl].y + step < q[c.bl].y;
      var v := StepVector(d, step);
      if !room then None
      else if !reversed then Some((MoveEdge(q, OppositeEdge(c, d), v), v))
      else Some((MoveEdge(q, ActiveEdge(c, d), Sub(Origin, v)), v))
  }

  /** The direction word `moveOnePixel` records: inverted for a (normal) reduction. */
  function NudgeWord(mode: ArrowMode, d: Direction, reversed: bool): string {
    if mode == Reduction && !reversed then DirectionWord(Opposite(d)) else DirectionWord(d)
  }

  // ---------------------------------------------------------------------------
  // `moveOnePixel` on the slots `vertexPosition` fills
  // ---------------------------------------------------------------------------

  /**
   * Slots as `vertexPosition` fills them for q: four entries, each empty or
   * the index of a vertex with that corner role. A box that is flat in one
   * direction leaves some slots empty.
   */
  predicate SlotsOk(q: Quad, v: seq<Option<nat>>) {
    |v| == 4 && forall role | 0 <= role < 4 :: v[role].Some? ==> v[role].value < 4 && Category(q, v[role].value) == Some(role)
  }

  /** The corner roles on the arrow's side (the first list of `directionVar`). */
  function ActiveRoles(d: Direction): (r: (nat, nat))
    ensures r.0 < 4 && r.1 < 4 && r.0 != r.1
  {
    match d
    case Left => (0, 3)
    case Right => (1, 2)
    case Up => (0, 1)
    case Down => (2, 3)
  }

  /** The role whose vertex the border test of a move or expansion reads. */
  function BorderRole(d: Direction): (r: nat)
    ensures r < 4
  {
    match d
    case Left => 0
    case Right => 1
    case Up => 0
    case Down => 3
  }

  /** The role the reduction guard compares with the top-left vertex: top-right across, bottom-left up and down. */
  function GuardRole(d: Direction): (r: nat)
    ensures r < 4
  {
    if Horizontal(d) then 1 else 3
  }

  /**
   * What `moveOnePixel` does with the slots it reads: raise (indexing the
   * corners with an empty slot, `points[None]`, is a TypeError), change
   * nothing, or move corners, recording `delta`.
   */
  datatype Outcome = Raises | Unchanged | Changed(moved: Quad, delta: Point)

  /**
   * The distance from vertex p to the border the arrow points at, when the
   * full step would cross that border and p is not on it yet.
   */
  function BorderDelta(img: Image, p: Point, d: Direction, step: real): Option<Point> {
    match d
    case Left => if p.x - step < 0.0 && p.x > 0.0 then Some(Point(-p.x, 0.0)) else None
    case Right => if p.x + step > img.W() && p.x < img.W() then Some(Point(img.W() - p.x, 0.0)) else None
    case Up => if p.y - step < 0.0 && p.y > 0.0 then Some(Point(0.0, -p.y)) else None
    case Down => if p.y + step > img.H() && p.y < img.H() then Some(Point(0.0, img.H() - p.y)) else None
  }

  /** Move the vertices in two slots by `amount`; an empty slot raises. */
  function EdgeAt(q: Quad, v: seq<Option<nat>>, roles: (nat, nat), amount: Point, delta: Point): (r: Outcome)
    requires SlotsOk(q, v) && roles.0 < 4 && roles.1 < 4 && roles.0 != roles.1
    ensures r.Raises? <==> v[roles.0].None? || v[roles.1].None?
    ensures r.Changed? ==> r.delta == delta && r.moved == MoveEdge(q, (v[roles.0].value, v[roles.1].value), amount)
  {
    if v[roles.0].Some? && v[roles.1].Some? then
      assert Category(q, v[roles.0].value) != Category(q, v[roles.1].value);
      Changed(MoveEdge(q, (v[roles.0].value, v[roles.1].value), amount), delta)
    else Raises
  }

  /**
   * A move or expansion by `delta`: a move shifts the vertices in all four
   * slots, which are then the four vertices; an expansion shifts the
   * arrow's side.
   */
  function ApplyDelta(q: Quad, v: seq<Option<nat>>, mode: ArrowMode, d: Direction, delta: Point): (r: Outcome)
    requires SlotsOk(q, v)
  {
    if mode == MoveMode then
      if v[0].Some? && v[1].Some? && v[2].Some? && v[3].Some? then Changed(Translate(q, delta), delta) else Raises
    else EdgeAt(q, v, ActiveRoles(d), delta, delta)
  }

  /**
   * The body of `moveOnePixel` on the slots v, reading a slot only where
   * the source indexes the corners with it. Move and expansion: the full
   * step when `moveOutOfBound` allows it, else the distance to the border
   * read from the arrow's border vertex. Reduction: only while the top-left
   * vertex plus the step stays short of the top-right (across) or
   * bottom-left (up and down) vertex; the normal reduction moves the side
   * opposite the arrow by the step, the reversed one moves the arrow's side
   * back by it.
   */
  function NudgeFound(img: Image, q: Quad, v: seq<Option<nat>>, mode: ArrowMode, d: Direction, step: real,
                      reversed: bool): (r: Outcome)
    requires SlotsOk(q, v)
  {
    if mode != Reduction then
      var full := StepVector(d, step);
      if !MoveOutOfBound(img, q, full) then ApplyDelta(q, v, mode, d, full)
      else if v[BorderRole(d)].None? then Raises
      else
        match BorderDelta(img, q[v[BorderRole(d)].value], d, step)
        case None => Unchanged
        case Some(delta) => ApplyDelta(q, v, mode, d, delta)
    else if v[0].None? || v[GuardRole(d)].None? then Raises
    else
      var a, b := q[v[0].value], q[v[GuardRole(d)].value];
      var room := if Horizontal(d) then a.x + step < b.x else a.y + step < b.y;
      var s := StepVector(d, step);
      if !room then Unchanged
      else if !reversed then EdgeAt(q, v, ActiveRoles(Opposite(d)), s, s)
      else EdgeAt(q, v, ActiveRoles(d), Sub(Origin, s), s)
  }

  /**
   * `moveOnePixel` for one arrow key, on the slots of `vertexPosition`.
   * The source's `reversed` reduction (shrinking from the arrow's own side)
   * is kept for completeness: the key handler always passes false. Where
   * the source raises, the shape is left as it was and `raised` is set.
   */
  function MoveOnePixel(img: Image, q: Quad, mode: ArrowMode, d: Direction, m: Modifier, reversed: bool): (r: NudgeResult)
    ensures r.changed <==> r.pixels.Some?
    ensures !r.changed ==> r.q == q
    ensures r.raised ==> !r.changed
    ensures r.word == DirectionWord(if mode == Reduction && !reversed then Opposite(d) else d)
  {
    var word := NudgeWord(mode, d, reversed);
    match NudgeFound(img, q, VertexPosition(q), mode, d, Step(m), reversed)
    case Raises => NudgeResult(q, false, word, None, true)
    case Unchanged => NudgeResult(q, false, word, None, false)
    case Changed(moved, delta) =>
      NudgeResult(moved, true, word, Some(if Horizontal(d) then Pixels(delta.x) else Pixels(delta.y)), false)
  }

  /** Every filled slot holds the vertex at its corner of the bounding box. */
  lemma SlotsAtCorners(q: Quad, v: seq<Option<nat>>)
    requires SlotsOk(q, v)
    ensures forall role | 0 <= role < 4 :: v[role].Some? ==> q[v[role].value] == Corners(BBox(q))[role]
  {
    forall role | 0 <= role < 4 && v[role].Some? ensures q[v[role].value] == Corners(BBox(q))[role] {
      CategoryCorner(q, v[role].value);
    }
  }

  /** Full slots holding the found corners, in the order top-left, top-right, bottom-right, bottom-left. */
  predicate SlotsHold(v: seq<Option<nat>>, c: CornerIdx) {
    |v| == 4 && v[0] == Some(c.tl) && v[1] == Some(c.tr) && v[2] == Some(c.br) && v[3] == Some(c.bl)
  }

  /** A move or expansion delta read from full slots is the delta of `MoveDelta` on the corners. */
  lemma MoveDeltaSlots(img: Image, q: Quad, c: CornerIdx, v: seq<Option<nat>>, d: Direction, step: real)
    requires CornersAt(q, c) && SlotsOk(q, v) && SlotsHold(v, c)
    ensures MoveDelta(img, q, c, d, step) ==
      if !MoveOutOfBound(img, q, StepVector(d, step)) then Some(StepVector(d, step))
      else BorderDelta(img, q[v[BorderRole(d)].value], d, step)
  {
  }

  /** Applying a delta on full slots is the translation or the arrow's edge move on the corners. */
  lemma ApplyDeltaSlots(q: Quad, c: CornerIdx, v: seq<Option<nat>>, mode: ArrowMode, d: Direction, delta: Point)
    requires CornersAt(q, c) && SlotsOk(q, v) && SlotsHold(v, c) && mode != Reduction
    ensures ApplyDelta(q, v, mode, d, delta) ==
      Changed(if mode == MoveMode then Translate(q, delta) else MoveEdge(q, ActiveEdge(c, d), delta), delta)
  {
    if mode != MoveMode {
      match d
      case Left => assert ActiveEdge(c, d) == (v[0].value, v[3].value);
      case Right => assert ActiveEdge(c, d) == (v[1].value, v[2].value);
      case Up => assert ActiveEdge(c, d) == (v[0].value, v[1].value);
      case Down => assert ActiveEdge(c, d) == (v[2].value, v[3].value);
    }
  }

  /** On full slots, move and expansion agree with the corner update. */
  lemma NudgeFoundSlotsMove(img: Image, q: Quad, c: CornerIdx, v: seq<Option<nat>>, mode: ArrowMode, d: Direction, step: real)
    requires CornersAt(q, c) && SlotsOk(q, v) && SlotsHold(v, c) && mode != Reduction
    ensures var nc := NudgeCorners(img, q, c, mode, d, step, false);
      var r := NudgeFound(img, q, v, mode, d, step, false);
      && (nc.None? ==> r == Unchanged)
      && (nc.Some? ==> r == Changed(nc.value.0, nc.value.1))
  {
    MoveDeltaSlots(img, q, c, v, d, step);
    match MoveDelta(img, q, c, d, step)
    case None =>
    case Some(delta) => ApplyDeltaSlots(q, c, v, mode, d, delta);
  }

  /** On full slots, reduction agrees with the corner update. */
  lemma NudgeFoundSlotsReduce(img: Image, q: Quad, c: CornerIdx, v: seq<Option<nat>>, d: Direction, step: real, reversed: bool)
    requires CornersAt(q, c) && SlotsOk(q, v) && SlotsHold(v, c)
    ensures var nc := NudgeCorners(img, q, c, Reduction, d, step, reversed);
      var r := NudgeFound(img, q, v, Reduction, d, step, reversed);
      && (nc.None? ==> r == Unchanged)
      && (nc.Some? ==> r == Changed(nc.value.0, nc.value.1))
  {
    assert v[GuardRole(d)].value == if Horizontal(d) then c.tr else c.bl;
    match d
    case Left => assert ActiveEdge(c, Right) == (v[1].value, v[2].value) && ActiveEdge(c, Left) == (v[0].value, v[3].value);
    case Right => assert ActiveEdge(c, Left) == (v[0].value, v[3].value) && ActiveEdge(c, Right) == (v[1].value, v[2].value);
    case Up => assert ActiveEdge(c, Down) == (v[2].value, v[3].value) && ActiveEdge(c, Up) == (v[0].value, v[1].value);
    case Down => assert ActiveEdge(c, Up) == (v[0].value, v[1].value) && ActiveEdge(c, Down) == (v[2].value, v[3].value);
  }

  /**
   * With all four corners found, the source's reads never raise and agree
   * with the corner update on the found corners.
   */
  lemma NudgeFoundComplete(img: Image, q: Quad, mode: ArrowMode, d: Direction, step: real, reversed: bool)
    requires Identify(q).Some?
    ensures Distinct(Identify(q).value)
    ensures var nc := NudgeCorners(img, q, Identify(q).value, mode, d, step, reversed);
      var r := NudgeFound(img, q, VertexPosition(q), mode, d, step, reversed);
      && !r.Raises?
      && (nc.None? <==> r.Unchanged?)
      && (nc.Some? ==> r == Changed(nc.value.0, nc.value.1))
  {
    IdentifyDistinct(q);
    var c := Identify(q).value;
    var v := VertexPosition(q);
    if mode == Reduction {
      NudgeFoundSlotsReduce(img, q, c, v, d, step, reversed);
    } else {
      assert NudgeCorners(img, q, c, mode, d, step, reversed) == NudgeCorners(img, q, c, mode, d, step, false);
      assert NudgeFound(img, q, v, mode, d, step, reversed) == NudgeFound(img, q, v, mode, d, step, false);
      NudgeFoundSlotsMove(img, q, c, v, mode, d, step);
    }
  }

  // ---------------------------------------------------------------------------
  // What a nudge does to the bounding box
  // ---------------------------------------------------------------------------

  /** The box with one side moved by `amount` (its x part for left/right, its y part for up/down). */
  function ShiftSide(b: Box, side: Direction, amount: Point): Box {
    match side
    case Left => b.(x0 := b.x0 + amount.x)
    case Right => b.(x1 := b.x1 + amount.x)
    case Up => b.(y0 := b.y0 + amount.y)
    case Down => b.(y1 := b.y1 + amount.y)
  }

  function ShiftBox(b: Box, d: Point): Box { Box(b.x0 + d.x, b.y0 + d.y, b.x1 + d.x, b.y1 + d.y) }

  /** How far the box can travel towards `d` before touching the image border. */
  function Room(img: Image, b: Box, d: Direction): real {
    match d
    case Left => b.x0
    case Right => img.W() - b.x1
    case Up => b.y0
    case Down => img.H() - b.y1
  }

  /** Four distinct vertices at the four corners of an ordered box make that box the bounding box. */
  lemma BBoxFromCorners(q: Quad, c: CornerIdx, b: Box)
    requires Distinct(c) && Ordered(b)
    requires q[c.tl] == Point(b.x0, b.y0) && q[c.tr] == Point(b.x1, b.y0)
    requires q[c.br] == Point(b.x1, b.y1) && q[c.bl] == Point(b.x0, b.y1)
    ensures BBox(q) == b
  {
    forall j | 0 <= j < 4 ensures InBox(q[j], b) {
      assert j == c.tl || j == c.tr || j == c.br || j == c.bl;
    }
    var r := BBox(q);
    assert r.x0 <= q[c.tl].x && r.y0 <= q[c.tl].y && r.x1 >= q[c.br].x && r.y1 >= q[c.br].y;
  }

  /** Moving the two corners of one side along its axis moves that side of the bounding box. */
  lemma MoveEdgeBox(q: Quad, c: CornerIdx, side: Direction, amount: Point)
    requires CornersAt(q, c)
    requires if Horizontal(side) then amount.y == 0.0 else amount.x == 0.0
    requires Ordered(ShiftSide(BBox(q), side, amount))
    ensures BBox(MoveEdge(q, ActiveEdge(c, side), amount)) == ShiftSide(BBox(q), side, amount)
  {
    var r := MoveEdge(q, ActiveEdge(c, side), amount);
    BBoxFromCorners(r, c, ShiftSide(BBox(q), side, amount));
  }

  /** For a box inside the image, a full step keeps it inside exactly when there is room for it. */
  lemma StepFits(img: Image, q: Quad, d: Direction, step: real)
    requires QuadInImage(q, img) && step > 0.0
    ensures !MoveOutOfBound(img, q, StepVector(d, step)) <==> Room(img, BBox(q), d) >= step
  {
    MoveOutOfBoundIff(img, q, StepVector(d, step));
    BBoxTranslate(q, StepVector(d, step));
    QuadInImageIffBox(q, img);
    QuadInImageIffBox(Translate(q, StepVector(d, step)), img);
  }

  /** `MoveDelta` with the out-of-bound test already decided. */
  lemma MoveDeltaCases(img: Image, q: Quad, c: CornerIdx, d: Direction, step: real, fits: bool)
    requires CornersAt(q, c) && QuadInImage(q, img) && step > 0.0
    requires fits <==> !MoveOutOfBound(img, q, StepVector(d, step))
    requires fits <==> Room(img, BBox(q), d) >= step
    ensures var room := Room(img, BBox(q), d);
      && (MoveDelta(img, q, c, d, step).Some? <==> room > 0.0)
      && (room > 0.0 ==> MoveDelta(img, q, c, d, step) == Some(StepVector(d, Min(step, room))))
  {
    QuadInImageIffBox(q, img);
    var b := BBox(q);
    assert 0.0 <= b.x0 && b.x1 <= img.W() && 0.0 <= b.y0 && b.y1 <= img.H();
    if !fits {
      match d
      case Left => assert q[c.tl].x == b.x0;
      case Right => assert q[c.tr].x == b.x1;
      case Up => assert q[c.tl].y == b.y0;
      case Down => assert q[c.bl].y == b.y1;
    }
  }

  /** The delta of a move or expansion is the step, truncated to the room left before the border. */
  lemma MoveDeltaTruncates(img: Image, q: Quad, c: CornerIdx, d: Direction, step: real)
    requires CornersAt(q, c) && QuadInImage(q, img) && step > 0.0
    ensures var room := Room(img, BBox(q), d);
      && (MoveDelta(img, q, c, d, step).Some? <==> room > 0.0)
      && (room > 0.0 ==> MoveDelta(img, q, c, d, step) == Some(StepVector(d, Min(step, room))))
  {
    StepFits(img, q, d, step);
    MoveDeltaCases(img, q, c, d, step, !MoveOutOfBound(img, q, StepVector(d, step)));
  }

  /** A move on known corners translates the box by the truncated step. */
  lemma NudgeCornersMove(img: Image, q: Quad, c: CornerIdx, d: Direction, step: real)
    requires CornersAt(q, c) && QuadInImage(q, img) && step > 0.0
    ensures var r := NudgeCorners(img, q, c, MoveMode, d, step, false);
      var room := Room(img, BBox(q), d);
      var delta := StepVector(d, Min(step, room));
      && (r.Some? <==> room > 0.0)
      && (r.Some? ==> r.value == (Translate(q, delta), delta))
  {
    MoveDeltaTruncates(img, q, c, d, step);
  }

  /** An expansion on known corners moves the arrow's side by the truncated step. */
  lemma NudgeCornersExpand(img: Image, q: Quad, c: CornerIdx, d: Direction, step: real)
    requires CornersAt(q, c) && QuadInImage(q, img) && step > 0.0
    ensures var r := NudgeCorners(img, q, c, Expansion, d, step, false);
      var room := Room(img, BBox(q), d);
      var delta := StepVector(d, Min(step, room));
      && (r.Some? <==> room > 0.0)
      && (r.Some? ==> r.value == (MoveEdge(q, ActiveEdge(c, d), delta), delta))
  {
    MoveDeltaTruncates(img, q, c, d, step);
  }

  /** A move on known corners shifts the bounding box by the truncated step and stays in the image. */
  lemma NudgeCornersMoveBox(img: Image, q: Quad, c: CornerIdx, d: Direction, step: real)
    requires CornersAt(q, c) && QuadInImage(q, img) && step > 0.0
    ensures var r := NudgeCorners(img, q, c, MoveMode, d, step, false);
      var delta := StepVector(d, Min(step, Room(img, BBox(q), d)));
      r.Some? ==> BBox(r.value.0) == ShiftBox(BBox(q), delta) && QuadInImage(r.value.0, img)
  {
    var room := Room(img, BBox(q), d);
    var delta := StepVector(d, Min(step, room));
    NudgeCornersMove(img, q, c, d, step);
    if room > 0.0 {
      QuadInImageIffBox(q, img);
      BBoxTranslate(q, delta);
      QuadInImageIffBox(Translate(q, delta), img);
    }
  }

  /** An expansion on known corners moves the arrow's side by the truncated step and stays in the image. */
  lemma NudgeCornersExpandBox(img: Image, q: Quad, c: CornerIdx, d: Direction, step: real)
    requires CornersAt(q, c) && QuadInImage(q, img) && step > 0.0
    ensures var r := NudgeCorners(img, q, c, Expansion, d, step, false);
      var delta := StepVector(d, Min(step, Room(img, BBox(q), d)));
      r.Some? ==> BBox(r.value.0) == ShiftSide(BBox(q), d, delta) && QuadInImage(r.value.0, img)
  {
    var room := Room(img, BBox(q), d);
    var delta := StepVector(d, Min(step, room));
    NudgeCornersExpand(img, q, c, d, step);
    if room > 0.0 {
      QuadInImageIffBox(q, img);
      MoveEdgeBox(q, c, d, delta);
      QuadInImageIffBox(MoveEdge(q, ActiveEdge(c, d), delta), img);
    }
  }

  /** Move and expansion on known corners: the delta is the truncated step, applied to the whole box or to one side. */
  lemma NudgeCornersMoveOrExpand(img: Image, q: Quad, c: CornerIdx, mode: ArrowMode, d: Direction, step: real)
    requires mode != Reduction && CornersAt(q, c) && QuadInImage(q, img) && step > 0.0
    ensures var r := NudgeCorners(img, q, c, mode, d, step, false);
      var room := Room(img, BBox(q), d);
      var delta := StepVector(d, Min(step, room));
      && (r.Some? <==> room > 0.0)
      && (r.Some? ==> r.value.1 == delta)
      && (r.Some? ==> BBox(r.value.0) == if mode == MoveMode then ShiftBox(BBox(q), delta) else ShiftSide(BBox(q), d, delta))
      && (r.Some? ==> QuadInImage(r.value.0, img))
  {
    if mode == MoveMode {
      NudgeCornersMove(img, q, c, d, step);
      NudgeCornersMoveBox(img, q, c, d, step);
    } else {
      NudgeCornersExpand(img, q, c, d, step);
      NudgeCornersExpandBox(img, q, c, d, step);
    }
  }

  /** Reduction on known corners: only while the box is larger than the step, moving one side inwards by it. */
  lemma NudgeCornersReduce(img: Image, q: Quad, c: CornerIdx, d: Direction, step: real, reversed: bool)
    requires CornersAt(q, c) && step > 0.0
    ensures var r := NudgeCorners(img, q, c, Reduction, d, step, reversed);
      var v := StepVector(d, step);
      && (r.Some? <==> (if Horizontal(d) then Width(q) else Height(q)) > step)
      && (r.Some? ==> r.value.1 == v)
      && (r.Some? && !reversed ==> BBox(r.value.0) == ShiftSide(BBox(q), Opposite(d), v))
      && (r.Some? && reversed ==> BBox(r.value.0) == ShiftSide(BBox(q), d, Sub(Origin, v)))
  {
    var r := NudgeCorners(img, q, c, Reduction, d, step, reversed);
    var v := StepVector(d, step);
    if r.Some? {
      if !reversed {
        MoveEdgeBox(q, c, Opposite(d), v);
      } else {
        MoveEdgeBox(q, c, d, Sub(Origin, v));
      }
    }
  }

  /** A reduction keeps the box inside whatever box held it. */
  lemma NudgeCornersReduceInImage(img: Image, q: Quad, c: CornerIdx, d: Direction, step: real, reversed: bool)
    requires CornersAt(q, c) && step > 0.0 && QuadInImage(q, img)
    ensures var r := NudgeCorners(img, q, c, Reduction, d, step, reversed);
      r.Some? ==> QuadInImage(r.value.0, img)
  {
    NudgeCornersReduce(img, q, c, d, step, reversed);
    var r := NudgeCorners(img, q, c, Reduction, d, step, reversed);
    if r.Some? {
      QuadInImageIffBox(q, img);
      QuadInImageIffBox(r.value.0, img);
    }
  }

  /** The recorded pixel count of a step vector is the step's size, whatever the direction. */
  lemma PixelsOfStep(d: Direction, a: real)
    requires a >= 0.0
    ensures (if Horizontal(d) then Pixels(StepVector(d, a).x) else Pixels(StepVector(d, a).y)) == Pixels(a)
  {
  }

  /** `moveOnePixel` once the corners are found is the corner update of `NudgeCorners`. */
  lemma MoveOnePixelFromCorners(img: Image, q: Quad, mode: ArrowMode, d: Direction, m: Modifier, reversed: bool)
    requires Identify(q).Some?
    ensures Distinct(Identify(q).value) && CornersAt(q, Identify(q).value)
    ensures var nc := NudgeCorners(img, q, Identify(q).value, mode, d, Step(m), reversed);
      var r := MoveOnePixel(img, q, mode, d, m, reversed);
      && (r.changed <==> nc.Some?)
      && (nc.Some? ==> r.q == nc.value.0)
      && (nc.Some? ==> r.pixels == Some(if Horizontal(d) then Pixels(nc.value.1.x) else Pixels(nc.value.1.y)))
      && !r.raised
  {
    IdentifyDistinct(q);
    NudgeFoundComplete(img, q, mode, d, Step(m), reversed);
  }

  /**
   * Move and expansion never push a box out of the image: the step is
   * truncated to the room left, a box already touching the border does not
   * change, a move keeps the size and an expansion moves only the arrow's side.
   * The recorded pixel count is the truncated step.
   */
  lemma NudgeMoveOrExpand(img: Image, q: Quad, mode: ArrowMode, d: Direction, m: Modifier)
    requires mode != Reduction && Identify(q).Some? && QuadInImage(q, img)
    ensures var r := MoveOnePixel(img, q, mode, d, m, false);
      var room := Room(img, BBox(q), d);
      var delta := StepVector(d, Min(Step(m), room));
      && (r.changed <==> room > 0.0)
      && (r.changed ==> r.pixels == Some(Pixels(Min(Step(m), room))))
      && (r.changed ==> BBox(r.q) == if mode == MoveMode then ShiftBox(BBox(q), delta) else ShiftSide(BBox(q), d, delta))
      && QuadInImage(r.q, img)
  {
    MoveOnePixelFromCorners(img, q, mode, d, m, false);
    NudgeCornersMoveOrExpand(img, q, Identify(q).value, mode, d, Step(m));
    var room := Room(img, BBox(q), d);
    if room > 0.0 {
      PixelsOfStep(d, Min(Step(m), room));
    }
  }

  /**
   * Reduction shrinks the box by exactly the step, only while it is wider
   * (or taller) than the step. The normal reduction moves the side opposite
   * the arrow; the reversed one moves the arrow's own side inwards.
   */
  lemma NudgeReduce(img: Image, q: Quad, d: Direction, m: Modifier, reversed: bool)
    requires Identify(q).Some?
    ensures var r := MoveOnePixel(img, q, Reduction, d, m, reversed);
      var v := StepVector(d, Step(m));
      && (r.changed <==> (if Horizontal(d) then Width(q) else Height(q)) > Step(m))
      && (r.changed ==> r.pixels == Some(Pixels(Step(m))))
      && (r.changed && !reversed ==> BBox(r.q) == ShiftSide(BBox(q), Opposite(d), v))
      && (r.changed && reversed ==> BBox(r.q) == ShiftSide(BBox(q), d, Sub(Origin, v)))
  {
    MoveOnePixelFromCorners(img, q, Reduction, d, m, reversed);
    NudgeCornersReduce(img, q, Identify(q).value, d, Step(m), reversed);
  }

  /** A move keeps the box's size. */
  lemma NudgeMoveKeepsSize(img: Image, q: Quad, d: Direction, m: Modifier)
    requires Identify(q).Some? && QuadInImage(q, img)
    ensures var r := MoveOnePixel(img, q, MoveMode, d, m, false);
      Width(r.q) == Width(q) && Height(r.q) == Height(q)
  {
    NudgeMoveOrExpand(img, q, MoveMode, d, m);
  }

  /** Whatever the mode, a nudge keeps a box that lies in the image inside it. */
  lemma NudgeStaysInImage(img: Image, q: Quad, mode: ArrowMode, d: Direction, m: Modifier, reversed: bool)
    requires QuadInImage(q, img)
    ensures QuadInImage(MoveOnePixel(img, q, mode, d, m, reversed).q, img)
  {
    var r := MoveOnePixel(img, q, mode, d, m, reversed);
    if r.changed {
      if mode != MoveMode {
        NudgeFoundEdgeInImage(img, q, VertexPosition(q), mode, d, Step(m), reversed);
      } else {
        MoveOnePixelPartial(img, q, mode, d, m, reversed);
        MoveOnePixelFromCorners(img, q, mode, d, m, reversed);
        NudgeCornersMoveBox(img, q, Identify(q).value, d, Step(m));
      }
    }
  }

  /** Moving two vertices to points in the image keeps the whole box in the image. */
  lemma EdgeMoveInImage(img: Image, q: Quad, i: nat, j: nat, amount: Point)
    requires i < 4 && j < 4 && i != j && QuadInImage(q, img)
    requires InImage(Add(q[i], amount), img) && InImage(Add(q[j], amount), img)
    ensures QuadInImage(MoveEdge(q, (i, j), amount), img)
  {
  }

  /**
   * What an expansion on any slots does when it changes the box: the
   * arrow's two vertices move by the full step, allowed by
   * `moveOutOfBound`, or else by the distance to the border read from the
   * border vertex.
   */
  lemma ExpandOutcome(img: Image, q: Quad, v: seq<Option<nat>>, d: Direction, step: real, reversed: bool)
    requires SlotsOk(q, v)
    ensures var r := NudgeFound(img, q, v, Expansion, d, step, reversed);
      var roles := ActiveRoles(d);
      r.Changed? ==>
        && v[roles.0].Some? && v[roles.1].Some?
        && r.moved == MoveEdge(q, (v[roles.0].value, v[roles.1].value), r.delta)
        && ((!MoveOutOfBound(img, q, StepVector(d, step)) && r.delta == StepVector(d, step)) ||
            (v[BorderRole(d)].Some? && BorderDelta(img, q[v[BorderRole(d)].value], d, step) == Some(r.delta)))
  {
  }

  /** The border delta takes a vertex of the arrow's side exactly onto the border. */
  lemma BorderDeltaInImage(img: Image, q: Quad, v: seq<Option<nat>>, d: Direction, step: real, delta: Point)
    requires SlotsOk(q, v) && QuadInImage(q, img)
    requires v[BorderRole(d)].Some? && BorderDelta(img, q[v[BorderRole(d)].value], d, step) == Some(delta)
    requires v[ActiveRoles(d).0].Some? && v[ActiveRoles(d).1].Some?
    ensures InImage(Add(q[v[ActiveRoles(d).0].value], delta), img)
    ensures InImage(Add(q[v[ActiveRoles(d).1].value], delta), img)
  {
    SlotsAtCorners(q, v);
    assert InImage(q[v[ActiveRoles(d).0].value], img) && InImage(q[v[ActiveRoles(d).1].value], img);
  }

  /** An expansion on any slots stops at the border, so the box stays in the image. */
  lemma ExpandSlotsInImage(img: Image, q: Quad, v: seq<Option<nat>>, d: Direction, step: real, reversed: bool)
    requires SlotsOk(q, v) && QuadInImage(q, img) && step > 0.0
    ensures var r := NudgeFound(img, q, v, Expansion, d, step, reversed);
      r.Changed? ==> QuadInImage(r.moved, img)
  {
    var r := NudgeFound(img, q, v, Expansion, d, step, reversed);
    ExpandOutcome(img, q, v, d, step, reversed);
    if r.Changed? {
      var roles := ActiveRoles(d);
      var i, j := v[roles.0].value, v[roles.1].value;
      var full := StepVector(d, step);
      if !MoveOutOfBound(img, q, full) && r.delta == full {
        MoveOutOfBoundIff(img, q, full);
        assert Translate(q, full)[i] == Add(q[i], full) && Translate(q, full)[j] == Add(q[j], full);
      } else {
        BorderDeltaInImage(img, q, v, d, step, r.delta);
      }
      EdgeMoveInImage(img, q, i, j, r.delta);
    }
  }

  /** A reduction on any slots moves one side towards the other, so the box stays in the image. */
  lemma ReduceSlotsInImage(img: Image, q: Quad, v: seq<Option<nat>>, d: Direction, step: real, reversed: bool)
    requires SlotsOk(q, v) && QuadInImage(q, img) && step > 0.0
    ensures var r := NudgeFound(img, q, v, Reduction, d, step, reversed);
      r.Changed? ==> QuadInImage(r.moved, img)
  {
    var r := NudgeFound(img, q, v, Reduction, d, step, reversed);
    if r.Changed? {
      var roles := if reversed then ActiveRoles(d) else ActiveRoles(Opposite(d));
      var amount := if reversed then Sub(Origin, StepVector(d, step)) else StepVector(d, step);
      var i, j := v[roles.0].value, v[roles.1].value;
      assert r.moved == MoveEdge(q, (i, j), amount);
      SlotsAtCorners(q, v);
      assert InImage(q[i], img) && InImage(q[j], img);
      assert InImage(q[v[0].value], img) && InImage(q[v[GuardRole(d)].value], img);
      if Horizontal(d) {
        assert InImage(Add(q[i], amount), img);
        assert InImage(Add(q[j], amount), img);
      } else {
        assert InImage(Add(q[i], amount), img);
        assert InImage(Add(q[j], amount), img);
      }
      EdgeMoveInImage(img, q, i, j, amount);
    }
  }

  /** An expansion or reduction on any slots keeps the box in the image. */
  lemma NudgeFoundEdgeInImage(img: Image, q: Quad, v: seq<Option<nat>>, mode: ArrowMode, d: Direction, step: real,
                              reversed: bool)
    requires SlotsOk(q, v) && QuadInImage(q, img) && step > 0.0 && mode != MoveMode
    ensures var r := NudgeFound(img, q, v, mode, d, step, reversed);
      r.Changed? ==> QuadInImage(r.moved, img)
  {
    if mode == Expansion {
      ExpandSlotsInImage(img, q, v, d, step, reversed);
    } else {
      ReduceSlotsInImage(img, q, v, d, step, reversed);
    }
  }

  /** A move with an empty slot never changes the box: it raises or stops at the border. */
  lemma MovePartialUnchanged(img: Image, q: Quad, v: seq<Option<nat>>, d: Direction, step: real, reversed: bool)
    requires SlotsOk(q, v) && (v[0].None? || v[1].None? || v[2].None? || v[3].None?)
    ensures !NudgeFound(img, q, v, MoveMode, d, step, reversed).Changed?
  {
  }

  /**
   * `moveOnePixel` raises only on a box whose corners are not all found,
   * and never moves such a box; with all four corners found it never
   * raises.
   */
  lemma MoveOnePixelPartial(img: Image, q: Quad, mode: ArrowMode, d: Direction, m: Modifier, reversed: bool)
    ensures var r := MoveOnePixel(img, q, mode, d, m, reversed);
      && (r.raised ==> Identify(q).None?)
      && (Identify(q).Some? ==> !r.raised)
      && (mode == MoveMode && r.changed ==> Identify(q).Some?)
  {
    if Identify(q).Some? {
      NudgeFoundComplete(img, q, mode, d, Step(m), reversed);
    } else if mode == MoveMode {
      MovePartialUnchanged(img, q, VertexPosition(q), d, Step(m), reversed);
    }
  }

  /**
   * Two pairs of equal vertices, the second and third on the top-right
   * corner and the first and last on the top-left one: `vertexPosition`
   * keeps the later vertex of each pair and fills no bottom slot.
   */
  lemma FlatSlots(q: Quad)
    requires Category(q, 0) == Some(0) && Category(q, 1) == Some(1)
    requires Category(q, 2) == Some(1) && Category(q, 3) == Some(0)
    ensures VertexPosition(q) == [Some(3), Some(2), None, None]
  {
    var v := VertexPosition(q);
    assert v[0] == Some(3) && v[1] == Some(2);
    assert v[2].None? && v[3].None?;
  }

  /**
   * The box of height zero at y = 5 from x = 5 to 10, listed as two pairs
   * of equal vertices: `vertexPosition` fills only the top-left and
   * top-right slots, and Expansion with the up arrow still grows it by one
   * pixel, reading only those two slots.
   */
  lemma FlatBoxExpandsUp()
    ensures var q: Quad := [Point(5.0, 5.0), Point(10.0, 5.0), Point(10.0, 5.0), Point(5.0, 5.0)];
      var r := MoveOnePixel(Image(100, 100), q, Expansion, Up, NoModifier, false);
      && VertexPosition(q) == [Some(3), Some(2), None, None]
      && r.changed && !r.raised && r.pixels == Some(1)
      && r.q == [Point(5.0, 5.0), Point(10.0, 5.0), Point(10.0, 4.0), Point(5.0, 4.0)]
  {
    var q: Quad := [Point(5.0, 5.0), Point(10.0, 5.0), Point(10.0, 5.0), Point(5.0, 5.0)];
    var img := Image(100, 100);
    assert BBox(q) == Box(5.0, 5.0, 10.0, 5.0);
    FlatSlots(q);
    var v := VertexPosition(q);
    var full := StepVector(Up, 1.0);
    assert forall i | 0 <= i < 4 :: !OutOfPixmap(img, Add(q[i], full));
    assert NudgeFound(img, q, v, Expansion, Up, 1.0, false) == Changed(MoveEdge(q, (3, 2), full), full);
  }
}
