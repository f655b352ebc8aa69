/**
 * The undo/redo history of labelImg.py: value snapshots of the shape list
 * (`undoShapedatamake`, `undoShapevisible`), reloading a snapshot
 * (`reloadShapes`, `loadLabels`), the two stacks (`undoAppend`,
 * `undomethod`, `redomethod`) and the order of the history panel
 * (`executedList_update`).
 */
module History {
  import opened Wrappers
  import opened Geometry
  import opened Clamp
  import opened Selection

  /**
   * One shape of a snapshot: its label, corners and difficult flag. The
   * source stores None for both colours and recomputes them from the label
   * on reload, so colours are not part of the model.
   */
  datatype ShapeData = ShapeData(name: string, points: Quad, difficult: bool)

  /** A history entry: its panel text, the shapes, and the indices whose list entries were unchecked (hidden). */
  datatype Entry = Entry(name: string, snapshot: seq<ShapeData>, hidden: seq<nat>)

  /** The window's editing state: the canvas and the two stacks (tops at the end). */
  datatype Editor = Editor(canvas: State, undo: seq<Entry>, redo: seq<Entry>)

  /** `undoShapedatamake`: plain values, one per shape, in list order. */
  function Snapshot(shapes: seq<Shape>): (r: seq<ShapeData>)
    ensures |r| == |shapes|
    ensures forall i | 0 <= i < |shapes| ::
      r[i].name == shapes[i].name && r[i].points == shapes[i].points && r[i].difficult == shapes[i].difficult
  {
    seq(|shapes|, i requires 0 <= i < |shapes| => ShapeData(shapes[i].name, shapes[i].points, shapes[i].difficult))
  }

  /** The hidden shapes among the first n, in increasing order. */
  function HiddenBelow(shapes: seq<Shape>, n: nat): (r: seq<nat>)
    requires n <= |shapes|
    ensures forall i: nat :: i in r <==> i < n && !shapes[i].visible
    ensures forall a, b | 0 <= a < b < |r| :: r[a] < r[b]
    ensures forall a | 0 <= a < |r| :: r[a] < n
  {
    if n == 0 then []
    else
      var rest := HiddenBelow(shapes, n - 1);
      if shapes[n - 1].visible then rest else rest + [n - 1]
  }

  /** `undoShapevisible`: the indices of the hidden shapes, increasing. */
  function HiddenIndices(shapes: seq<Shape>): (r: seq<nat>)
    ensures forall i: nat :: i in r <==> i < |shapes| && !shapes[i].visible
    ensures forall a, b | 0 <= a < b < |r| :: r[a] < r[b]
  {
    HiddenBelow(shapes, |shapes|)
  }

  /** `snapPointToCanvas` on each corner, as `loadLabels` does. */
  function SnapQuad(img: Image, q: Quad): (r: Quad)
    ensures QuadInImage(r, img)
    ensures QuadInImage(q, img) ==> r == q
  {
    var p := seq(4, i requires 0 <= i < 4 => SnapPointToCanvas(img, q[i].x, q[i].y).p);
    assert forall i | 0 <= i < 4 :: InImage(q[i], img) ==> p[i] == q[i];
    p
  }

  /**
   * `reloadShapes`: fresh shapes from a snapshot, corners snapped into the
   * image; a shape is visible unless its index is listed as hidden.
   */
  function Reload(img: Image, snap: seq<ShapeData>, hidden: seq<nat>): (r: seq<Shape>)
    ensures |r| == |snap| && ShapesInImage(r, img)
    ensures forall i | 0 <= i < |snap| :: r[i].name == snap[i].name && r[i].difficult == snap[i].difficult
    ensures forall i | 0 <= i < |snap| :: r[i].visible <==> i !in hidden
  {
    seq(|snap|, i requires 0 <= i < |snap| =>
      Shape(snap[i].name, SnapQuad(img, snap[i].points), snap[i].difficult, i !in hidden))
  }

  /** A snapshot of shapes inside the image reloads to exactly those shapes. */
  lemma ReloadSnapshot(img: Image, shapes: seq<Shape>)
    requires ShapesInImage(shapes, img)
    ensures Reload(img, Snapshot(shapes), HiddenIndices(shapes)) == shapes
  {
    var r := Reload(img, Snapshot(shapes), HiddenIndices(shapes));
    forall i | 0 <= i < |shapes| ensures r[i] == shapes[i] {
      assert QuadInImage(shapes[i].points, img);
    }
  }

  /** Taking a snapshot of reloaded shapes gives back the snapshot, once its corners lie in the image. */
  lemma SnapshotReload(img: Image, snap: seq<ShapeData>, hidden: seq<nat>)
    requires forall i | 0 <= i < |snap| :: QuadInImage(snap[i].points, img)
    ensures Snapshot(Reload(img, snap, hidden)) == snap
  {
    var r := Snapshot(Reload(img, snap, hidden));
    forall i | 0 <= i < |snap| ensures r[i] == snap[i] {
      assert QuadInImage(snap[i].points, img);
    }
  }

  /** The entry describing the current shapes under a name. */
  function Capture(st: State, name: string): Entry {
    Entry(name, Snapshot(st.shapes), HiddenIndices(st.shapes))
  }

  /** The canvas shows exactly what the top undo entry holds. */
  predicate Synced(ed: Editor) {
    |ed.undo| > 0 && var top := ed.undo[|ed.undo| - 1];
    ed.canvas.shapes == Reload(ed.canvas.img, top.snapshot, top.hidden)
  }

  /** `undoAppend`: push one entry capturing the current shapes and empty the redo stack. */
  function UndoAppend(ed: Editor, name: string): (r: Editor)
    ensures |r.undo| == |ed.undo| + 1 && r.undo[..|ed.undo|] == ed.undo && r.redo == []
    ensures r.undo[|ed.undo|].name == name && r.canvas == ed.canvas
  {
    Editor(ed.canvas, ed.undo + [Capture(ed.canvas, name)], [])
  }

  /** After a push the canvas is in step with the new top entry. */
  lemma UndoAppendSyncs(ed: Editor, name: string)
    requires ShapesInImage(ed.canvas.shapes, ed.canvas.img)
    ensures Synced(UndoAppend(ed, name))
  {
    ReloadSnapshot(ed.canvas.img, ed.canvas.shapes);
  }

  /**
   * The canvas after reloading entry e (`reloadShapes`, the hiding loop and
   * `cancelCutmethod`). The label list then selects its last row; in edit
   * mode (`editing`) its selection handler selects the last shape, while in
   * create mode the handler does nothing and the selection, which create
   * mode keeps empty, stays empty. Each hidden row is selected, unchecked
   * and deselected in turn, so any hidden shape leaves nothing selected.
   * Autotracking is off afterwards: either the old selection was dropped,
   * which switches it off, or the list is empty and it is switched off
   * directly.
   */
  function Restore(st: State, e: Entry, editing: bool): (r: State)
    ensures r.shapes == Reload(st.img, e.snapshot, e.hidden) && r.img == st.img
    ensures r.selected == (if editing && e.hidden == [] && |e.snapshot| > 0 then Some(|e.snapshot| - 1) else None)
    ensures !r.autotracking && r.armed == {} && r.prevCutpos.None?
    ensures Valid(r)
  {
    var shapes := Reload(st.img, e.snapshot, e.hidden);
    var sel: Option<nat> := if editing && e.hidden == [] && |shapes| > 0 then Some(|shapes| - 1) else None;
    var multi := if sel.Some? then [sel.value] else [];
    st.(shapes := shapes, selected := sel, multi := multi, autotracking := false, armed := {}, prevCutpos := None)
  }

  /** The `autotrackingEnd` call that opens undo and redo: silenced by raising the checker. */
  function Silence(st: State): (r: State)
    ensures r == st.(undochecker := st.undochecker || st.autotracking)
  {
    if st.autotracking then st.(undochecker := true) else st
  }

  /**
   * `undomethod`: with more than one entry, the top entry moves to the redo
   * stack and the new top is reloaded; the first entry (the file-open
   * entry) is never popped. The checker raised at the start is lowered at
   * the end whether or not anything was undone.
   */
  function Undo(ed: Editor, editing: bool): (r: Editor)
    ensures |ed.undo| > 1 ==> var n := |ed.undo|;
      && r.undo == ed.undo[..n - 1] && r.redo == ed.redo + [ed.undo[n - 1]]
      && r.canvas == Restore(ed.canvas, ed.undo[n - 2], editing).(undochecker := false)
    ensures |ed.undo| <= 1 ==> r == ed.(canvas := ed.canvas.(undochecker := false))
  {
    var c := Silence(ed.canvas);
    if |ed.undo| > 1 then
      var u := ed.undo[..|ed.undo| - 1];
      Editor(Restore(c, u[|u| - 1], editing).(undochecker := false), u, ed.redo + [ed.undo[|ed.undo| - 1]])
    else Editor(c.(undochecker := false), ed.undo, ed.redo)
  }

  /** `redomethod`: the top of the redo stack moves back onto the undo stack and is reloaded. */
  function Redo(ed: Editor, editing: bool): (r: Editor)
    ensures |ed.redo| > 0 ==> var n := |ed.redo|;
      && r.undo == ed.undo + [ed.redo[n - 1]] && r.redo == ed.redo[..n - 1]
      && r.canvas == Restore(ed.canvas, ed.redo[n - 1], editing).(undochecker := false)
    ensures |ed.redo| == 0 ==> r == ed.(canvas := ed.canvas.(undochecker := false))
  {
    var c := Silence(ed.canvas);
    if |ed.redo| > 0 then
      var top := ed.redo[|ed.redo| - 1];
      Editor(Restore(c, top, editing).(undochecker := false), ed.undo + [top], ed.redo[..|ed.redo| - 1])
    else Editor(c.(undochecker := false), ed.undo, ed.redo)
  }

  /** Outside undo and redo the checker is down; both keep it so. */
  lemma UndoRedoLowerChecker(ed: Editor, editing: bool)
    ensures !Undo(ed, editing).canvas.undochecker && !Redo(ed, editing).canvas.undochecker
  {
  }

  /** With the checker down, an undo or redo with nothing to do changes nothing at all. */
  lemma UndoRedoNoOp(ed: Editor, editing: bool)
    requires !ed.canvas.undochecker
    ensures |ed.undo| <= 1 ==> Undo(ed, editing) == ed
    ensures |ed.redo| == 0 ==> Redo(ed, editing) == ed
  {
  }

  /** Undo keeps the first entry and never empties a non-empty undo stack. */
  lemma UndoKeepsFirst(ed: Editor, editing: bool)
    requires |ed.undo| > 0
    ensures |Undo(ed, editing).undo| > 0 && Undo(ed, editing).undo[0] == ed.undo[0]
    ensures |Undo(ed, editing).undo| + |Undo(ed, editing).redo| == |ed.undo| + |ed.redo|
  {
  }

  /** An effective undo or redo leaves the canvas in step with the new top entry. */
  lemma UndoRedoSync(ed: Editor, editing: bool)
    ensures |ed.undo| > 1 ==> Synced(Undo(ed, editing))
    ensures |ed.redo| > 0 ==> Synced(Redo(ed, editing))
  {
  }

  /**
   * Undo then redo restores both stacks, and restores the shapes of a
   * canvas that was in step with its top entry.
   */
  lemma UndoThenRedo(ed: Editor, editing: bool)
    requires |ed.undo| > 1
    ensures Redo(Undo(ed, editing), editing).undo == ed.undo && Redo(Undo(ed, editing), editing).redo == ed.redo
    ensures Synced(ed) ==> Redo(Undo(ed, editing), editing).canvas.shapes == ed.canvas.shapes
  {
    var n := |ed.undo|;
    assert ed.undo[..n - 1] + [ed.undo[n - 1]] == ed.undo;
    assert (ed.redo + [ed.undo[n - 1]])[..|ed.redo|] == ed.redo;
  }

  /** Redo then undo restores both stacks and, for a canvas in step, the shapes. */
  lemma RedoThenUndo(ed: Editor, editing: bool)
    requires |ed.redo| > 0 && |ed.undo| > 0
    ensures Undo(Redo(ed, editing), editing).undo == ed.undo && Undo(Redo(ed, editing), editing).redo == ed.redo
    ensures Synced(ed) ==> Undo(Redo(ed, editing), editing).canvas.shapes == ed.canvas.shapes
  {
    var n := |ed.redo|;
    assert ed.redo[..n - 1] + [ed.redo[n - 1]] == ed.redo;
    assert (ed.undo + [ed.redo[n - 1]])[..|ed.undo|] == ed.undo;
  }

  /** A new action after an undo discards the undone entries for good. */
  lemma AppendAfterUndoDropsRedo(ed: Editor, name: string, editing: bool)
    requires |ed.undo| > 1
    ensures UndoAppend(Undo(ed, editing), name).redo == []
    ensures UndoAppend(Undo(ed, editing), name).undo[..|ed.undo| - 1] == ed.undo[..|ed.undo| - 1]
  {
  }

  // ---------------------------------------------------------------------------
  // The history panel (`executedList_update`)
  // ---------------------------------------------------------------------------

  function Names(es: seq<Entry>): (r: seq<string>)
    ensures |r| == |es| && forall i | 0 <= i < |es| :: r[i] == es[i].name
  {
    seq(|es|, i requires 0 <= i < |es| => es[i].name)
  }

  function Reversed<T>(s: seq<T>): (r: seq<T>)
    ensures |r| == |s| && forall i | 0 <= i < |s| :: r[i] == s[|s| - 1 - i]
  {
    if |s| == 0 then [] else [s[|s| - 1]] + Reversed(s[..|s| - 1])
  }

  /**
   * `executedList_update`: the undo entries oldest first, then the redo
   * entries from the next one to redo onwards; the highlighted row is the
   * top of the undo stack.
   */
  function ExecutedList(ed: Editor): (r: (seq<string>, int))
    ensures r.1 == |ed.undo| - 1 && |r.0| == |ed.undo| + |ed.redo|
    ensures ed.undo != [] ==> r.0[r.1] == ed.undo[|ed.undo| - 1].name
  {
    (Names(ed.undo) + Names(Reversed(ed.redo)), |ed.undo| - 1)
  }

  /** Moving the top undo entry onto the redo stack keeps the panel's rows. */
  lemma ShiftTopKeepsRows(undo: seq<Entry>, redo: seq<Entry>)
    requires |undo| > 0
    ensures Names(undo[..|undo| - 1]) + Names(Reversed(redo + [undo[|undo| - 1]])) == Names(undo) + Names(Reversed(redo))
  {
    var a := Names(undo) + Names(Reversed(redo));
    var b := Names(undo[..|undo| - 1]) + Names(Reversed(redo + [undo[|undo| - 1]]));
    assert |a| == |b|;
    forall i | 0 <= i < |a| ensures a[i] == b[i] {
      if i < |undo| - 1 {
      } else if i == |undo| - 1 {
      } else {
      }
    }
  }

  /** Undo keeps the panel's rows and moves the highlight up by one. */
  lemma UndoKeepsRows(ed: Editor, editing: bool)
    requires |ed.undo| > 1
    ensures ExecutedList(Undo(ed, editing)).0 == ExecutedList(ed).0 && ExecutedList(Undo(ed, editing)).1 == ExecutedList(ed).1 - 1
  {
    ShiftTopKeepsRows(ed.undo, ed.redo);
  }

  /** Redo keeps the panel's rows and moves the highlight down by one. */
  lemma RedoKeepsRows(ed: Editor, editing: bool)
    requires |ed.redo| > 0
    ensures ExecutedList(Redo(ed, editing)).0 == ExecutedList(ed).0 && ExecutedList(Redo(ed, editing)).1 == ExecutedList(ed).1 + 1
  {
    var r := Redo(ed, editing);
    ShiftTopKeepsRows(r.undo, r.redo);
    assert r.undo[..|r.undo| - 1] == ed.undo;
    assert r.redo + [r.undo[|r.undo| - 1]] == ed.redo;
  }

  /** Undo and redo never change the panel's rows; they only move the highlight by one. */
  lemma ExecutedListStable(ed: Editor, editing: bool)
    ensures |ed.undo| > 1 ==> ExecutedList(Undo(ed, editing)).0 == ExecutedList(ed).0 && ExecutedList(Undo(ed, editing)).1 == ExecutedList(ed).1 - 1
    ensures |ed.redo| > 0 ==> ExecutedList(Redo(ed, editing)).0 == ExecutedList(ed).0 && ExecutedList(Redo(ed, editing)).1 == ExecutedList(ed).1 + 1
  {
    if |ed.undo| > 1 {
      UndoKeepsRows(ed, editing);
    }
    if |ed.redo| > 0 {
      RedoKeepsRows(ed, editing);
    }
  }

  // ---------------------------------------------------------------------------
  // The undo/redo as the source writes them
  // ---------------------------------------------------------------------------

  /**
   * `undomethod` as written: the checker raised at the start is lowered
   * only inside the branch that pops an entry.
   */
  function UndoAsWritten(ed: Editor, editing: bool): (r: Editor)
    ensures |ed.undo| > 1 ==> r == Undo(ed, editing)
    ensures |ed.undo| <= 1 ==> r == ed.(canvas := Silence(ed.canvas))
  {
    var c := Silence(ed.canvas);
    if |ed.undo| > 1 then
      var u := ed.undo[..|ed.undo| - 1];
      Editor(Restore(c, u[|u| - 1], editing).(undochecker := false), u, ed.redo + [ed.undo[|ed.undo| - 1]])
    else Editor(c, ed.undo, ed.redo)
  }

  /** `redomethod` as written, with the same flaw on an empty redo stack. */
  function RedoAsWritten(ed: Editor, editing: bool): (r: Editor)
    ensures |ed.redo| > 0 ==> r == Redo(ed, editing)
    ensures |ed.redo| == 0 ==> r == ed.(canvas := Silence(ed.canvas))
  {
    var c := Silence(ed.canvas);
    if |ed.redo| > 0 then
      var top := ed.redo[|ed.redo| - 1];
      Editor(Restore(c, top, editing).(undochecker := false), ed.undo + [top], ed.redo[..|ed.redo| - 1])
    else Editor(c, ed.undo, ed.redo)
  }

  /**
   * The flaw: pressing undo with only the file-open entry (or redo with an
   * empty redo stack) while autotracking leaves the checker raised and
   * autotracking running, so ending the session later records nothing even
   * though the box moved.
   */
  lemma NoOpUndoSilencesAutotracking(ed: Editor, editing: bool)
    requires Valid(ed.canvas) && ed.canvas.autotracking && !ed.canvas.undochecker
    requires ed.canvas.trackStart != ed.canvas.shapes[ed.canvas.selected.value].points
    ensures AutotrackingEnd(ed.canvas) == [AutotrackingUndo]
    ensures |ed.undo| <= 1 ==> var r := UndoAsWritten(ed, editing).canvas;
      r.autotracking && r.undochecker && AutotrackingEnd(r) == []
    ensures |ed.redo| == 0 ==> var r := RedoAsWritten(ed, editing).canvas;
      r.autotracking && r.undochecker && AutotrackingEnd(r) == []
  {
  }

  /** The corrected undo and redo: after a no-op, ending the session still records the move. */
  lemma NoOpUndoKeepsAutotrackingEntry(ed: Editor, editing: bool)
    requires Valid(ed.canvas) && ed.canvas.autotracking && !ed.canvas.undochecker
    requires ed.canvas.trackStart != ed.canvas.shapes[ed.canvas.selected.value].points
    ensures |ed.undo| <= 1 ==> var r := Undo(ed, editing).canvas;
      r.autotracking && AutotrackingEnd(r) == [AutotrackingUndo]
    ensures |ed.redo| == 0 ==> var r := Redo(ed, editing).canvas;
      r.autotracking && AutotrackingEnd(r) == [AutotrackingUndo]
  {
  }
}
