/**
 * The window's editing commands (labelImg.py): each runs a canvas
 * operation and records the history entry it promises. Covered: the
 * arm-then-fire cut and resize commands and `cancelCutmethod`, the
 * click-move, rotate and autotracking toggles, arrow keys and mouse
 * presses, and the merge of a group (`mergeShapemethod`).
 */
module Controller {
  import opened Wrappers
  import opened Geometry
  import opened Transforms
  import opened Nudge
  import opened Selection
  import opened Edits
  import opened History
  import opened Text

  /** The history right after a file is opened: one file-open entry and nothing to redo. */
  function Opened(st: State): (r: Editor)
    ensures |r.undo| == 1 && r.undo[0].name == OpenFileText && r.redo == [] && r.canvas == st
    ensures ShapesInImage(st.shapes, st.img) ==> Synced(r)
  {
    if ShapesInImage(st.shapes, st.img) then ReloadSnapshot(st.img, st.shapes); Editor(st, [Capture(st, OpenFileText)], [])
    else Editor(st, [Capture(st, OpenFileText)], [])
  }

  // ---------------------------------------------------------------------------
  // Recording signals as history entries
  // ---------------------------------------------------------------------------

  /** The entry name each canvas signal's slot pushes, for the shape labelled `tag`. */
  function EventText(e: Event, tag: string): string {
    match e
    case AutotrackingUndo => Tagged(AutotrackingText, tag)
    case RotateUndo => Tagged(RotateText, tag)
    case ClickmoveUndo => Tagged(ClickmoveText, tag)
    case KeypressUndo(mode, word, pixels) => KeypressText(mode, word, pixels, tag)
  }

  /**
   * Run the slot of every signal in order, one `undoAppend` each. The
   * signals of one command all fire on the same shapes, so every entry
   * captures the same canvas.
   */
  function Record(ed: Editor, events: seq<Event>, tag: string): (r: Editor)
    ensures r.canvas == ed.canvas
    ensures |r.undo| == |ed.undo| + |events| && r.undo[..|ed.undo|] == ed.undo
    ensures forall i | 0 <= i < |events| :: r.undo[|ed.undo| + i] == Capture(ed.canvas, EventText(events[i], tag))
    ensures events == [] ==> r == ed
    ensures events != [] ==> r.redo == []
  {
    if events == [] then ed
    else
      var added := seq(|events|, i requires 0 <= i < |events| => Capture(ed.canvas, EventText(events[i], tag)));
      Editor(ed.canvas, ed.undo + added, [])
  }

  /** A single signal records exactly what one `undoAppend` does. */
  lemma RecordOne(ed: Editor, e: Event, tag: string)
    ensures Record(ed, [e], tag) == UndoAppend(ed, EventText(e, tag))
  {
  }

  /** The label of the selected shape, which names every single-shape entry. */
  function SelectedName(st: State): string
    requires SelOk(st) && st.selected.Some?
  {
    st.shapes[st.selected.value].name
  }

  // ---------------------------------------------------------------------------
  // Cut and resize: arm, then fire (`horizontalcutShapemethod` … `resizeBoxmethod`)
  // ---------------------------------------------------------------------------

  /** The entry name of each armed edit. */
  function CutText(mode: CutMode): string {
    match mode
    case HorizontalCut => HorizontalCutText
    case VerticalCut => VerticalCutText
    case CrossCut => CrossCutText
    case ResizeBox => ResizeText
  }

  /** The canvas operation behind each armed edit, at the saved click. */
  function ApplyCut(st: State, mode: CutMode): (r: Step)
    requires Valid(st) && st.selected.Some?
    ensures Valid(r.st) && r.st.selected.Some? && mode !in r.st.armed && r.st.prevCutpos.None?
    ensures r.st.armed == st.armed - {mode} && r.st.clickmove == st.clickmove
  {
    match mode
    case HorizontalCut => Horizontalcut(st, st.prevCutpos)
    case VerticalCut => Verticalcut(st, st.prevCutpos)
    case CrossCut => Crosscut(st, st.prevCutpos)
    case ResizeBox => ResizeSelected(st, st.prevCutpos)
  }

  /**
   * The label list's answer to `shapeSelectionChanged(True)` after a cut:
   * marking the new piece's row selected fires `labelSelectionChanged`,
   * which calls `selectShape` on that piece, so it becomes the group of
   * one as well. (A selection exists only in edit mode, since leaving it
   * deselects, so the slot's edit-mode test always passes here.)
   */
  function ListReselect(st: State): (r: State)
    requires Valid(st)
    ensures Valid(r) && r.shapes == st.shapes && r.img == st.img && r.armed == st.armed && r.prevCutpos == st.prevCutpos
    ensures r.selected == st.selected
    ensures st.selected.Some? ==> r.multi == [st.selected.value]
    ensures st.selected.None? ==> r == st
  {
    match st.selected
    case None => st
    case Some(k) => SelectShape(st, k).st
  }

  /**
   * The four arm-then-fire commands. Nothing happens during click-move or
   * autotracking. With a selection: when this edit alone is armed it fires
   * (the edit runs, its flag drops, one entry is pushed; after a cut the
   * new piece is reselected through the label list, so it is also the
   * whole group); when nothing is armed it arms; when another edit is armed
   * nothing happens.
   */
  function CutMethod(ed: Editor, mode: CutMode): (r: Editor)
    requires Valid(ed.canvas)
    ensures Valid(r.canvas)
    ensures var st := ed.canvas; r != ed ==> !st.clickmove && !st.autotracking && st.selected.Some? && st.armed <= {mode}
    ensures var st := ed.canvas; !st.clickmove && !st.autotracking && st.selected.Some? && st.armed == {mode} ==>
      && r.canvas.shapes == ApplyCut(st, mode).st.shapes && r.canvas.selected == ApplyCut(st, mode).st.selected
      && r.canvas.armed == {} && r.canvas.prevCutpos.None?
      && (mode == ResizeBox ==> r.canvas == ApplyCut(st, mode).st)
      && (mode != ResizeBox ==> r.canvas == ListReselect(ApplyCut(st, mode).st) && r.canvas.multi == [r.canvas.selected.value])
      && r.undo == ed.undo + [Capture(r.canvas, Tagged(CutText(mode), SelectedName(r.canvas)))]
      && r.redo == []
    ensures var st := ed.canvas; !st.clickmove && !st.autotracking && st.selected.Some? && st.armed == {} ==>
      r == ed.(canvas := st.(armed := {mode}))
  {
    var st := ed.canvas;
    if st.clickmove || st.autotracking then ed
    else if st.selected.Some? && st.armed == {mode} then
      var cut := ApplyCut(st, mode).st;
      var s := if mode == ResizeBox then cut else ListReselect(cut);
      UndoAppend(ed.(canvas := s), Tagged(CutText(mode), SelectedName(s)))
    else if st.selected.Some? && st.armed <= {mode} then
      ed.(canvas := st.(armed := st.armed + {mode}))
    else ed
  }

  /** `cancelCutmethod`: disarm everything and forget the saved click; shapes, selection and history stay. */
  function CancelCutMethod(ed: Editor): (r: Editor)
    ensures r.canvas.armed == {} && r.canvas.prevCutpos.None?
    ensures r.canvas.shapes == ed.canvas.shapes && r.canvas.selected == ed.canvas.selected && r.canvas.multi == ed.canvas.multi
    ensures r.undo == ed.undo && r.redo == ed.redo
  {
    ed.(canvas := CancelCutShape(ed.canvas))
  }

  /** Arming and then firing an edit pushes exactly one entry and leaves nothing armed. */
  lemma ArmThenFire(ed: Editor, mode: CutMode)
    requires Valid(ed.canvas) && ed.canvas.selected.Some? && ed.canvas.armed == {}
    requires !ed.canvas.clickmove && !ed.canvas.autotracking
    ensures var a := CutMethod(ed, mode);
      && a.canvas.armed == {mode} && a.undo == ed.undo && a.canvas.shapes == ed.canvas.shapes
      && var f := CutMethod(a, mode);
         |f.undo| == |ed.undo| + 1 && f.undo[..|ed.undo|] == ed.undo && f.canvas.armed == {} && f.redo == []
  {
    var a := CutMethod(ed, mode);
    assert a.canvas.armed == {mode};
  }

  /** While one edit is armed, invoking a different one changes nothing. */
  lemma OtherEditBlocked(ed: Editor, armed: CutMode, mode: CutMode)
    requires Valid(ed.canvas) && ed.canvas.armed == {armed} && mode != armed
    ensures CutMethod(ed, mode) == ed
  {
    assert armed in ed.canvas.armed && armed !in {mode};
  }

  // ---------------------------------------------------------------------------
  // Click-move, rotation and autotracking toggles
  // ---------------------------------------------------------------------------

  /** `clickmoveShapemethod`: arm click-move for a selected shape when no edit is armed and autotracking is off. */
  function ClickmoveShapeMethod(ed: Editor): (r: Editor)
    requires Valid(ed.canvas)
    ensures var st := ed.canvas; r.canvas.clickmove <==> st.clickmove || (st.selected.Some? && st.armed == {} && !st.autotracking)
    ensures r.canvas == ed.canvas.(clickmove := r.canvas.clickmove) && r.undo == ed.undo && r.redo == ed.redo
  {
    var st := ed.canvas;
    if st.selected.Some? && st.armed == {} && !st.autotracking then ed.(canvas := st.(clickmove := true)) else ed
  }

  /** `rotateShapemethod` with `rotateUndosave`: rotate the selected shape and record it when it turned. */
  function RotateShapeMethod(ed: Editor): (r: Editor)
    requires Valid(ed.canvas)
    ensures Valid(r.canvas)
    ensures var st := ed.canvas;
      if st.selected.Some? && !st.autotracking && RotateShape(st.img, st.shapes[st.selected.value].points).Some? then
        && r.canvas == RotateSelected(st).st && r.redo == []
        && r.undo == ed.undo + [Capture(r.canvas, Tagged(RotateText, SelectedName(st)))]
      else r == ed
  {
    var st := ed.canvas;
    if st.selected.Some? && !st.autotracking then
      var s := RotateSelected(st);
      Record(ed.(canvas := s.st), s.events, SelectedName(st))
    else ed
  }

  /**
   * `autotrackingLabelmethod` with `autotrackingUndosave`. Checking the
   * action (with a selection) drops click-move, starts autotracking and
   * remembers the corners; unchecking stops it and records one entry when
   * the box moved since the start.
   */
  function AutotrackingLabelMethod(ed: Editor, checked: bool): (r: Editor)
    requires Valid(ed.canvas)
    ensures Valid(r.canvas) && r.canvas.shapes == ed.canvas.shapes
    ensures ed.canvas.selected.None? ==> r == ed
    ensures ed.canvas.selected.Some? && checked ==>
      && r.canvas.autotracking && !r.canvas.clickmove && r.undo == ed.undo && r.redo == ed.redo
      && r.canvas.trackStart == ed.canvas.shapes[ed.canvas.selected.value].points
    ensures ed.canvas.selected.Some? && !checked ==>
      && !r.canvas.autotracking
      && (|r.undo| == |ed.undo| + 1 <==> !ed.canvas.undochecker && ed.canvas.trackStart != ed.canvas.shapes[ed.canvas.selected.value].points)
      && (|r.undo| == |ed.undo| || |r.undo| == |ed.undo| + 1)
  {
    var st := ed.canvas;
    if st.selected.None? then ed
    else if checked then ed.(canvas := AutotrackingStart(st.(clickmove := false, autotracking := true)))
    else
      var events := AutotrackingEnd(st);
      Record(ed.(canvas := st.(autotracking := false)), events, SelectedName(st))
  }

  /** A session whose box never moved records nothing. */
  lemma AutotrackingSessionSilentWithoutMove(ed: Editor)
    requires Valid(ed.canvas) && ed.canvas.selected.Some?
    ensures var on := AutotrackingLabelMethod(ed, true);
      AutotrackingLabelMethod(on, false).undo == ed.undo
  {
  }

  // ---------------------------------------------------------------------------
  // Arrow keys and mouse presses
  // ---------------------------------------------------------------------------

  /** An arrow key with `keypressUndosave`: one entry when the box changed, none otherwise. */
  function KeyPressMethod(ed: Editor, d: Direction, m: Modifier): (r: Editor)
    requires Valid(ed.canvas)
    ensures Valid(r.canvas) && r.canvas == KeyPress(ed.canvas, d, m).st
    ensures KeyPress(ed.canvas, d, m).events == [] ==> r == ed
    ensures KeyPress(ed.canvas, d, m).events != [] ==>
      && ed.canvas.selected.Some? && r.redo == [] && |r.undo| == |ed.undo| + 1 && r.undo[..|ed.undo|] == ed.undo
      && r.undo[|ed.undo|] == Capture(r.canvas, EventText(KeyPress(ed.canvas, d, m).events[0], SelectedName(ed.canvas)))
  {
    var s := KeyPress(ed.canvas, d, m);
    if s.events == [] then ed else Record(ed.(canvas := s.st), s.events, SelectedName(ed.canvas))
  }

  /** The recorded entry names the arrow mode, the direction word and the pixel count of the nudge. */
  lemma KeyPressMethodText(ed: Editor, d: Direction, m: Modifier)
    requires Valid(ed.canvas) && KeyPress(ed.canvas, d, m).events != []
    ensures var e := KeyPress(ed.canvas, d, m).events[0];
      && e.KeypressUndo? && e.mode == ed.canvas.arrowMode
      && KeyPressMethod(ed, d, m).undo[|ed.undo|].name == KeypressText(e.mode, e.word, e.pixels, SelectedName(ed.canvas))
  {
    KeyPressEvent(ed.canvas, d, m);
    KeyPressEntry(ed, d, m);
    var r := KeyPressMethod(ed, d, m);
    KeypressEntryName(r.canvas, KeyPress(ed.canvas, d, m).events[0], SelectedName(ed.canvas));
  }

  /** A nudge that changes the shape signals a key-press entry in the current arrow mode. */
  lemma KeyPressEvent(st: State, d: Direction, m: Modifier)
    requires Valid(st) && KeyPress(st, d, m).events != []
    ensures var e := KeyPress(st, d, m).events[0]; e.KeypressUndo? && e.mode == st.arrowMode
  {
  }

  /** The entry pushed for a nudge captures the new canvas under the text of its signal. */
  lemma KeyPressEntry(ed: Editor, d: Direction, m: Modifier)
    requires Valid(ed.canvas) && KeyPress(ed.canvas, d, m).events != []
    ensures var r := KeyPressMethod(ed, d, m);
      r.undo[|ed.undo|] == Capture(r.canvas, EventText(KeyPress(ed.canvas, d, m).events[0], SelectedName(ed.canvas)))
  {
  }

  /** The name of an entry captured for a key-press signal is that signal's text. */
  lemma KeypressEntryName(c: State, e: Event, tag: string)
    requires e.KeypressUndo?
    ensures Capture(c, EventText(e, tag)).name == KeypressText(e.mode, e.word, e.pixels, tag)
  {
  }

  /**
   * A mouse press, with the slots of the signals it emits: a click-move
   * records a click-move entry; a click that drops an autotracked
   * selection records the session's entry. A press without a selection
   * emits nothing.
   */
  function PressMethod(ed: Editor, button: Button, pos: Point, m: Modifier, drawing: bool, editing: bool,
                       hover: Option<nat>, vertexoff: bool): (r: Editor)
    requires Valid(ed.canvas) && (hover.Some? ==> hover.value < |ed.canvas.shapes|)
    ensures Valid(r.canvas)
    ensures var s := MousePress(ed.canvas, button, pos, m, drawing, editing, hover, vertexoff);
      && r.canvas == s.st && |r.undo| == |ed.undo| + |s.events|
      && (s.events != [] ==> forall i | 0 <= i < |s.events| ::
            r.undo[|ed.undo| + i].name == EventText(s.events[i], SelectedName(ed.canvas)))
  {
    var s := MousePress(ed.canvas, button, pos, m, drawing, editing, hover, vertexoff);
    if s.events == [] then ed.(canvas := s.st)
    else Record(ed.(canvas := s.st), s.events, SelectedName(ed.canvas))
  }

  /**
   * A plain press away from a tracked box that has moved since tracking
   * began, with the undo checker down, records exactly one autotracking
   * entry for the selected shape; a press on or near that box records
   * nothing.
   */
  lemma PressRecordsTracking(ed: Editor, button: Button, pos: Point, editing: bool, hover: Option<nat>, vertexoff: bool)
    requires Valid(ed.canvas) && (hover.Some? ==> hover.value < |ed.canvas.shapes|)
    requires (button == LeftButton && !ed.canvas.clickmove && ed.canvas.armed == {}) || (button == RightButton && editing)
    ensures var st := ed.canvas; var r := PressMethod(ed, button, pos, NoModifier, false, editing, hover, vertexoff);
      DropsTracked(st, pos) && !st.undochecker && st.trackStart != st.shapes[st.selected.value].points ==>
        && |r.undo| == |ed.undo| + 1 && r.undo[..|ed.undo|] == ed.undo
        && r.undo[|ed.undo|].name == Tagged(AutotrackingText, SelectedName(st))
    ensures !DropsTracked(ed.canvas, pos) ==> PressMethod(ed, button, pos, NoModifier, false, editing, hover, vertexoff).undo == ed.undo
  {
    MousePressEndsTracking(ed.canvas, button, pos, editing, hover, vertexoff);
  }
  /**
   * A shift-press on a tracked single selection that pairs it with another
   * shape, after the box moved and with the undo checker down, records
   * exactly one autotracking entry for that shape; a shift-press on a group
   * of one or more that pairs nothing tracked records nothing.
   */
  lemma ShiftPressRecordsTracking(ed: Editor, pos: Point, editing: bool, hover: Option<nat>, vertexoff: bool)
    requires Valid(ed.canvas) && (hover.Some? ==> hover.value < |ed.canvas.shapes|)
    requires !ed.canvas.clickmove && ed.canvas.armed == {}
    ensures var st := ed.canvas; var r := PressMethod(ed, LeftButton, pos, ShiftModifier, false, editing, hover, vertexoff);
      PairsTracked(st, pos, |st.shapes|) && !st.undochecker && st.trackStart != st.shapes[st.selected.value].points ==>
        && |r.undo| == |ed.undo| + 1 && r.undo[..|ed.undo|] == ed.undo
        && r.undo[|ed.undo|].name == Tagged(AutotrackingText, SelectedName(st))
    ensures |ed.canvas.multi| >= 1 && !PairsTracked(ed.canvas, pos, |ed.canvas.shapes|) ==>
      PressMethod(ed, LeftButton, pos, ShiftModifier, false, editing, hover, vertexoff).undo == ed.undo
  {
    MousePressShiftEndsTracking(ed.canvas, pos, editing, hover, vertexoff);
  }


  /** A click-move press strictly inside the image moves a box that fits and records exactly one click-move entry. */
  lemma ClickMovePressRecords(ed: Editor, pos: Point, m: Modifier, editing: bool, hover: Option<nat>, vertexoff: bool)
    requires Valid(ed.canvas) && (hover.Some? ==> hover.value < |ed.canvas.shapes|)
    requires ed.canvas.clickmove && ed.canvas.selected.Some? && StrictlyInImage(pos, ed.canvas.img)
    requires var q := ed.canvas.shapes[ed.canvas.selected.value].points; Width(q) <= ed.canvas.img.W() && Height(q) <= ed.canvas.img.H()
    ensures var r := PressMethod(ed, LeftButton, pos, m, false, editing, hover, vertexoff);
      && |r.undo| == |ed.undo| + 1
      && r.undo[|ed.undo|].name == Tagged(ClickmoveText, SelectedName(ed.canvas))
      && QuadInImage(r.canvas.shapes[ed.canvas.selected.value].points, ed.canvas.img)
  {
    ClickMoveSelectedFits(ed.canvas, pos);
    MousePressClickMoveInside(ed.canvas, pos, m, editing, hover, vertexoff);
  }

  // ---------------------------------------------------------------------------
  // Merge (`mergeShapemethod`)
  // ---------------------------------------------------------------------------

  /** The labels of the shapes at the given indices. */
  function LabelsAt(shapes: seq<Shape>, idx: seq<nat>): (r: seq<string>)
    requires forall k | 0 <= k < |idx| :: idx[k] < |shapes|
    ensures |r| == |idx| && forall k | 0 <= k < |idx| :: r[k] == shapes[idx[k]].name
  {
    seq(|idx|, k requires 0 <= k < |idx| => shapes[idx[k]].name)
  }

  /** The difficult flags of the shapes at the given indices. */
  function FlagsAt(shapes: seq<Shape>, idx: seq<nat>): (r: seq<bool>)
    requires forall k | 0 <= k < |idx| :: idx[k] < |shapes|
    ensures |r| == |idx| && forall k | 0 <= k < |idx| :: r[k] == shapes[idx[k]].difficult
  {
    seq(|idx|, k requires 0 <= k < |idx| => shapes[idx[k]].difficult)
  }

  /** The indices below n outside `drop`, increasing: the rows that survive deleting `drop`. */
  function KeptBelow(drop: seq<nat>, n: nat): (r: seq<nat>)
    ensures forall i: nat :: i in r <==> i < n && i !in drop
    ensures forall a, b | 0 <= a < b < |r| :: r[a] < r[b]
    ensures forall a | 0 <= a < |r| :: r[a] < n
  {
    if n == 0 then []
    else
      var rest := KeptBelow(drop, n - 1);
      if n - 1 in drop then rest else rest + [n - 1]
  }

  /** With nothing dropped below m, the first m rows survive in place. */
  lemma {:induction false} KeptIdentity(drop: seq<nat>, m: nat)
    requires forall x | x in drop :: x >= m
    ensures |KeptBelow(drop, m)| == m && forall i | 0 <= i < m :: KeptBelow(drop, m)[i] == i
  {
    if m > 0 {
      KeptIdentity(drop, m - 1);
    }
  }

  /** When every dropped row lies above p, rows 0..p keep their positions. */
  lemma {:induction false} KeptPrefix(drop: seq<nat>, n: nat, p: nat)
    requires p < n && forall x | x in drop :: x > p
    ensures |KeptBelow(drop, n)| > p && forall i | 0 <= i <= p :: KeptBelow(drop, n)[i] == i
  {
    if n == p + 1 {
      KeptIdentity(drop, n);
    } else {
      KeptPrefix(drop, n - 1, p);
    }
  }

  /** The shapes at the surviving rows. */
  function ShapesAt(shapes: seq<Shape>, keep: seq<nat>): (r: seq<Shape>)
    requires forall a | 0 <= a < |keep| :: keep[a] < |shapes|
    ensures |r| == |keep| && forall a | 0 <= a < |keep| :: r[a] == shapes[keep[a]]
  {
    seq(|keep|, a requires 0 <= a < |keep| => shapes[keep[a]])
  }

  /** Mixed difficult flags: both values occur, the source's two-element `set(difficultlist)`. */
  predicate Mixed(flags: seq<bool>) { true in flags && false in flags }

  /** The rows a merge keeps: every non-member and the lowest member. */
  function MergeKeep(st: State): (r: seq<nat>)
    requires Valid(st) && |st.multi| > 1
    ensures forall j: nat :: j in r <==> j < |st.shapes| && (j == MinOf(st.multi) || j !in st.multi)
    ensures forall a | 0 <= a < |r| :: r[a] < |st.shapes|
    ensures MinOf(st.multi) < |r| && r[MinOf(st.multi)] == MinOf(st.multi)
  {
    var pick := MinOf(st.multi);
    var drop := Remove(st.multi, pick);
    KeptPrefix(drop, |st.shapes|, pick);
    KeptBelow(drop, |st.shapes|)
  }

  /**
   * The canvas part of a merge (`mergeShape`, the deletion of the other
   * members, `selectShape`): the lowest member takes the group box, the
   * given label and flag; only the kept rows remain; it is the sole
   * selection.
   */
  function MergeApply(st: State, name: string, difficult: bool): (r: State)
    requires Valid(st) && |st.multi| > 1
    ensures Valid(r) && r.img == st.img
    ensures var pick := MinOf(st.multi); r.selected == Some(pick) && r.multi == [pick]
    ensures |r.shapes| == |MergeKeep(st)|
  {
    var (m, pick) := MergeShape(st).value;
    var merged := m.shapes[pick].(name := name, difficult := difficult);
    var keep := MergeKeep(st);
    m.(shapes := ShapesAt(m.shapes[pick := merged], keep), selected := Some(pick), multi := [pick])
  }

  /** The merged row carries the group box, the label and the flag; every other kept row is untouched. */
  lemma MergeApplyShapes(st: State, name: string, difficult: bool)
    requires Valid(st) && |st.multi| > 1
    ensures var pick := MinOf(st.multi); var r := MergeApply(st, name, difficult).shapes; var keep := MergeKeep(st);
      && r[pick] == Shape(name, Corners(GroupBox(QuadsAt(st.shapes, st.multi))), difficult, st.shapes[pick].visible)
      && (forall a | 0 <= a < |keep| && keep[a] != pick :: r[a] == st.shapes[keep[a]])
  {
  }

  /** Some member of the group carries a label other than the first member's. */
  predicate GroupLabelsDiffer(st: State)
    requires Valid(st)
  {
    exists k | 0 <= k < |st.multi| :: st.shapes[st.multi[k]].name != st.shapes[st.multi[0]].name
  }

  /** The source's test, more than one distinct label in the group, is `GroupLabelsDiffer`. */
  lemma GroupLabelsDifferIff(st: State)
    requires Valid(st) && |st.multi| > 0
    ensures GroupLabelsDiffer(st) <==> |LabelSet(LabelsAt(st.shapes, st.multi))| > 1
  {
    var labels := LabelsAt(st.shapes, st.multi);
    LabelSetMany(labels);
    if GroupLabelsDiffer(st) {
      var k :| 0 <= k < |st.multi| && st.shapes[st.multi[k]].name != st.shapes[st.multi[0]].name;
      assert labels[k] != labels[0];
    }
  }

  /**
   * `mergeShapemethod`, for a group of two or more. With differing labels
   * the label dialog is asked first (`prompt`); cancelling it aborts before
   * any change. Otherwise the group is merged into its lowest-indexed
   * member, which takes the dialog's label when labels differed and becomes
   * difficult when the flags were mixed; the other members are deleted; the
   * merged shape becomes the only selection, and one entry naming the group
   * and the resulting label is pushed.
   */
  function MergeShapeMethod(ed: Editor, prompt: Option<string>): (r: Editor)
    requires Valid(ed.canvas)
    ensures Valid(r.canvas)
    ensures var st := ed.canvas; |st.multi| <= 1 || (prompt.None? && GroupLabelsDiffer(st)) ==> r == ed
    ensures var st := ed.canvas;
      |st.multi| > 1 && (prompt.Some? || !GroupLabelsDiffer(st)) ==>
      var pick := MinOf(st.multi);
      var name := if GroupLabelsDiffer(st) then prompt.value else st.shapes[pick].name;
      && r.canvas == MergeApply(st, name, Mixed(FlagsAt(st.shapes, st.multi)) || st.shapes[pick].difficult)
      && r.undo == ed.undo + [Capture(r.canvas, MergeEntryText(UndoTextSelect(LabelsAt(st.shapes, st.multi)), name))]
      && r.redo == []
  {
    var st := ed.canvas;
    if |st.multi| <= 1 then ed
    else
      var labels := LabelsAt(st.shapes, st.multi);
      GroupLabelsDifferIff(st);
      var mixedLabels := |LabelSet(labels)| > 1;
      if mixedLabels && prompt.None? then ed
      else
        var pick := MinOf(st.multi);
        var name := if mixedLabels then prompt.value else st.shapes[pick].name;
        var difficult := if Mixed(FlagsAt(st.shapes, st.multi)) then true else st.shapes[pick].difficult;
        UndoAppend(ed.(canvas := MergeApply(st, name, difficult)), MergeEntryText(UndoTextSelect(labels), name))
  }

  // ---------------------------------------------------------------------------
  // The mode invariant
  // ---------------------------------------------------------------------------

  /** At most one edit is armed, and never while click-move is armed. */
  predicate ModesExclusive(st: State) {
    (forall a, b | a in st.armed && b in st.armed :: a == b) && (st.clickmove ==> st.armed == {})
  }

  /** Arming, firing and cancelling edits and toggling click-move or autotracking keep the modes exclusive. */
  lemma ModesStayExclusive(ed: Editor, mode: CutMode, checked: bool)
    requires Valid(ed.canvas) && ModesExclusive(ed.canvas)
    ensures ModesExclusive(CutMethod(ed, mode).canvas)
    ensures ModesExclusive(CancelCutMethod(ed).canvas)
    ensures ModesExclusive(ClickmoveShapeMethod(ed).canvas)
    ensures ModesExclusive(AutotrackingLabelMethod(ed, checked).canvas)
  {
    var st := ed.canvas;
    if !st.clickmove && !st.autotracking && st.selected.Some? && st.armed <= {mode} {
      assert CutMethod(ed, mode).canvas.armed <= {mode};
    }
  }

  /** Undo and redo disarm every edit, so they keep the modes exclusive too. */
  lemma UndoRedoKeepModes(ed: Editor, editing: bool)
    requires ModesExclusive(ed.canvas)
    ensures ModesExclusive(Undo(ed, editing).canvas) && ModesExclusive(Redo(ed, editing).canvas)
  {
  }
}
