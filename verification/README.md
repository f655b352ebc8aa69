# labelImg box editing, modelled in Dafny

This project models the box-editing engine of labelImg, an image annotation
tool. A shape is a labelled box of four corner points with a `difficult`
flag. The model has two parts.

The canvas part (`libs/canvas.py`) covers:

- clamping a point into the image;
- dragging one vertex or a whole shape (alone or as a group);
- horizontal, vertical and cross cuts;
- click resize, merge into one bounding box and rotation by 90°;
- click-move and the autotracking magnet jump;
- the arrow-key nudges in move, expand and reduce modes;
- the selection rules: plain click, shift-click toggle, rubber band;
- the routing of a mouse press to the armed edit.

The controller part (`labelImg.py`) covers:

- the undo and redo stacks of value snapshots, and how a snapshot is reloaded;
- the texts of the history entries;
- the save-time degeneracy check and the preset bounds check;
- merge orchestration;
- the "arm, then fire" cut and resize commands and their cancellation;
- the recent-files list;
- the wrap-around of next/previous box selection.

Coordinates are exact `real`s. A shape is identified by its index in the
shape list. The single selection is an optional index and the
multi-selection is a list of indices. Qt signals that lead to history
entries (`rotateUndo`, `keypressUndo`, …) are returned as `Event` values,
and the controller turns each one into an `undoAppend`. Dialog answers, the
vertex under the cursor and the intersection point of a drag with the
image border are inputs. The undo checker is the canvas flag
`autotracking_undochecker`; while it is raised, ending autotracking records
no history entry.

Modules, one per file:

- `Wrappers`: `Option`.
- `Geometry`: points, quads, bounding boxes, containment.
- `Clamp`: `snapPointToCanvas`, `outOfPixmap`, `moveOutOfBound`.
- `Drag`: vertex and shape dragging, offsets, group boundary.
- `Transforms`: rotation, click-move, magnet, resize, cuts, merge box.
- `Nudge`: `vertexPosition` and `moveOnePixel`.
- `Selection`: the canvas state and the selection rules.
- `Edits`: the canvas edits on the whole state, and the mouse press.
- `Text`: history entry texts.
- `History`: snapshots, undo and redo.
- `Checks`: `checkShapespoints`, `presetChecker`.
- `Lists`: recent files and next/previous box index.
- `Controller`: the main-window commands that drive the canvas and push history entries.

## Model

| member | source | states |
|---|---|---|
| Geometry.BBox | libs/canvas.py:1687-1690 | The min/max box is ordered and bounds every corner. |
| Geometry.BBoxAttained | libs/canvas.py:1687-1690 | Each of the four sides of the min/max box is attained by some corner, so it is the smallest box holding them. |
| Geometry.HalfExtents | libs/canvas.py:1232-1240 | The centre minus or plus the half extent gives the min and max coordinates; the half extents are half the width and height and are never negative. |
| Geometry.BBoxOfCorners | libs/canvas.py:1627-1630 | The four clockwise corners built from an ordered box have exactly that box as their bounding box, and they form an axis-aligned rectangle. |
| Geometry.QuadInImageIffBox | libs/canvas.py:862-864 | All four corners lie in the image exactly when the bounding box does. |
| Geometry.BBoxTranslate | libs/canvas.py:1706-1708 | Moving a shape by a delta moves its bounding box by the same delta. |
| Clamp.SnapPointToCanvas | libs/canvas.py:634-646 | The result always lies in [0,W]×[0,H]. The flag is false exactly when the input was already inside, and then the point is unchanged; when it is true, the point was changed. |
| Clamp.SnapIsNearest | libs/canvas.py:634-646 | The clamped point is, coordinate by coordinate, at least as close to the input as any point of the image. |
| Clamp.SnapIdempotent | libs/canvas.py:634-646 | Clamping a clamped point changes nothing and reports no snap. |
| Clamp.MoveOutOfBoundIff | libs/canvas.py:1706-1708 | A step is refused exactly when the shape moved by that step would leave the image. |
| Drag.SquareTarget | libs/canvas.py:655-662 | In square mode the dragged vertex lands at equal x and y distance from the opposite vertex, no farther than the cursor on either axis, on the cursor's side. |
| Drag.BoundedMoveVertex | libs/canvas.py:648-679 | The dragged vertex moves to the cursor, or to the border point when the cursor is outside. In square mode it lands on the square target: measured from the opposite vertex, the smaller of the two cursor distances along both axes, towards the cursor. That puts it equally far from the opposite vertex along both axes. The opposite vertex stays put. |
| Drag.BoundedMoveVertexNeighbours | libs/canvas.py:668-679 | Each neighbour of the dragged vertex receives only the shift along the axis on which it shares the vertex's coordinate. |
| Drag.BoundedMoveVertexKeepsRect | libs/canvas.py:668-679 | Dragging a vertex of an axis-aligned rectangle leaves an axis-aligned rectangle. |
| Drag.BoundedMoveVertexInImage | libs/canvas.py:648-652 | With the border point inside the image, a rectangle that was inside the image stays inside after a vertex drag. |
| Drag.CalculateOffsets | libs/canvas.py:598-604 | The two offsets take the cursor to the bounding box's min and max corners. |
| Drag.ClampedCursorFits | libs/canvas.py:684-691 | When the offsets span a box no larger than the image, the corrected cursor carries that box entirely inside the image. |
| Drag.BoundedMoveShape | libs/canvas.py:681-702 | A cursor outside the image moves nothing. Otherwise the shape is translated by exactly the cursor's corrected displacement, and it reports a move only when that displacement is non-zero. |
| Drag.BoundedMoveShapeStaysInside | libs/canvas.py:681-702 | A shape that fits in the image keeps its offsets relative to the cursor, and a shape that moves lands inside the image. |
| Drag.MultiShapeBoundary | libs/canvas.py:615-632 | The boundary exists exactly for groups of two or more, and it contains the bounding box of every member. |
| Drag.GrowAttained | libs/canvas.py:615-632 | Each side of the running union box comes from the start box or from one of the folded boxes. |
| Drag.MultiShapeBoundaryTight | libs/canvas.py:615-632 | For a group inside the image, each side of the boundary is a side of some member's bounding box. |
| Drag.CalculateMultiOffsets | libs/canvas.py:606-613 | Offsets are set exactly for groups of two or more, and they take the cursor to the group boundary's corners. |
| Drag.BoundedMoveShapeMulti | libs/canvas.py:704-722 | Every group member moves by the same delta and no other shape changes. A cursor outside the image moves nothing. |
| Drag.GroupMoveStaysInside | libs/canvas.py:704-722 | When the group boundary is in the image and the offsets are its own, every member lands inside the image after a move. |
| Transforms.RotateShape | libs/canvas.py:1232-1250 | The rotation applies exactly when the swapped box around the same centre lies in the image. The result keeps the centre, swaps width and height, and is a clockwise rectangle inside the image. |
| Transforms.RotateTwice | libs/canvas.py:1232-1250 | Rotating a rectangle inside the image twice gives back the original shape. |
| Transforms.ClickMoveBoxExtents | libs/canvas.py:1252-1365 | Every branch of the click-move placement keeps the box's width and height. |
| Transforms.ClickMoveBoxClamps | libs/canvas.py:1252-1365 | For a box that fits in the image, the placement centres it on the click clamped into the feasible range: flush against an edge or a corner when the click is too close to it. |
| Transforms.ClickMoveShape | libs/canvas.py:1252-1365 | A placed shape is a rectangle of the same size. When the box fits centred on the click, it is centred there. |
| Transforms.ClickMoveClamps | libs/canvas.py:1252-1365 | For a shape no larger than the image, click-move always applies, and the result lies inside the image. |
| Transforms.TrackingMagnetShape | libs/canvas.py:1660-1685 | The jump happens exactly when the box centred on the cursor fits in the image. The result is centred on the cursor, has the same size and lies inside the image. |
| Transforms.Resizebox | libs/canvas.py:1565-1609 | Without a click, the box doubles from its min corner only if the result stays strictly inside the image, and is unchanged otherwise. With a click, the new box spans the min corner and the click. |
| Transforms.ResizeToClick | libs/canvas.py:1583-1609 | The resized box spans the anchor and the click. Whenever the click differs from the anchor on both axes, its vertices are the clockwise corners of that span, whatever the quadrant. |
| Transforms.ResizeboxInImage | libs/canvas.py:1565-1609 | A click inside the image resizes a shape that was inside the image into one that stays inside. |
| Transforms.HorizontalPieces | libs/canvas.py:1386-1430 | The top piece spans from the top edge to the cut line and the bottom piece from the cut line to the bottom edge; the cut line is the click's y, or the centre. |
| Transforms.VerticalPieces | libs/canvas.py:1432-1476 | The left and right pieces meet at the click's x, or at the centre. |
| Transforms.CrossPieces | libs/canvas.py:1478-1563 | The four quadrants, in top-left, top-right, bottom-left, bottom-right order, are cut at the click, or at the centre. |
| Transforms.CutLineInside | libs/canvas.py:312-317 | A click accepted by the cut guard puts the cut lines inside the box. |
| Transforms.HorizontalTiles | libs/canvas.py:1386-1430 | The two pieces share the cut edge, have disjoint interiors and together cover exactly the original box. |
| Transforms.VerticalTiles | libs/canvas.py:1432-1476 | The two pieces share the cut edge, have disjoint interiors and together cover exactly the original box. |
| Transforms.CrossTiles | libs/canvas.py:1478-1563 | The four quadrants have pairwise disjoint interiors and together cover exactly the original box. |
| Transforms.GroupBox | libs/canvas.py:1611-1630 | The merged box contains every vertex of every selected shape, and each side is attained by some vertex. |
| Nudge.VertexPosition | libs/canvas.py:939-957 | Each corner role found names a vertex of that category, and no later vertex has it, so the last one wins. A role is missing only when no vertex has that category. |
| Nudge.Identify | libs/canvas.py:939-957 | The identified indices hold the four corners of the bounding box and are exactly the four slots `vertexPosition` fills. Identification fails exactly when some slot stays empty. |
| Nudge.IdentifyAxisRect | libs/canvas.py:939-957 | Every non-degenerate axis-aligned rectangle has all four corners identified. |
| Nudge.IdentifyDistinct | libs/canvas.py:939-957 | Identified corners are four distinct indices, and the shape has positive width and height. |
| Nudge.MoveOnePixel | libs/canvas.py:1092-1214 | Works on the slots `vertexPosition` fills, whole or partial. A pixel count is reported exactly when the shape changes, and a case that reads an empty slot changes nothing. The recorded direction word is the opposite of the arrow in reduce mode and the arrow itself otherwise. |
| Nudge.EdgeAt | libs/canvas.py:1171-1200 | Moving two slots raises exactly when one of them is empty; otherwise it moves the two vertices in those slots by the amount. |
| Nudge.NudgeFoundComplete | libs/canvas.py:1092-1214 | On a shape whose four corners are identified, the slot-based nudge never raises and agrees with the nudge on the identified corners, both on whether anything changes and on the result. |
| Nudge.MoveOnePixelFromCorners | libs/canvas.py:1092-1214 | On identified corners, the nudge changes the shape exactly when the corner-based nudge does, gives its corners and pixel count, and never raises. |
| Nudge.MoveOnePixelPartial | libs/canvas.py:1092-1214 | A nudge raises only on a shape with an empty slot, never on one with all four corners identified. A move changes a shape only when all four corners are identified. |
| Nudge.FlatBoxExpandsUp | libs/canvas.py:1092-1173 | For the flat box [(5,5),(10,5),(10,5),(5,5)], `vertexPosition` fills only the two top slots, with vertices 3 and 2. Expanding it upwards by one pixel moves those two vertices up by one and reports one pixel. |
| Nudge.NudgeFoundEdgeInImage | libs/canvas.py:1138-1200 | An expansion or reduction on any slots, whole or partial, never takes a shape inside the image outside it. |
| Nudge.MoveDeltaTruncates | libs/canvas.py:1092-1214 | A move or expand step is truncated to the room left before the image border, and no step is taken when there is no room. |
| Nudge.NudgeMoveOrExpand | libs/canvas.py:1092-1214 | Move shifts the whole box and expand moves only the arrow's side. Both are cut to the room left, change nothing at the border, report the applied distance and never leave the image. |
| Nudge.NudgeReduce | libs/canvas.py:1092-1214 | Reduce moves only the side opposite the arrow, by the full step, and only when the box is wider (or higher) than the step; the reported distance is the step. |
| Nudge.NudgeMoveKeepsSize | libs/canvas.py:1092-1214 | Moving with the arrow keys never changes width or height. |
| Nudge.NudgeCornersMoveBox | libs/canvas.py:1092-1214 | A move on identified corners shifts the bounding box by the truncated step along the arrow and keeps it in the image. |
| Nudge.NudgeCornersExpandBox | libs/canvas.py:1092-1214 | An expansion on identified corners moves only the arrow's side of the bounding box, by the truncated step, and keeps it in the image. |
| Nudge.NudgeStaysInImage | libs/canvas.py:1092-1214 | No nudge takes a shape that was inside the image outside it. |
| Selection.AutotrackingEnd | libs/canvas.py:1649-1658 | Ending autotracking emits its signal exactly when the undo checker is down and the corners differ from those saved at the start. |
| Selection.AutotrackingStillIsSilent | libs/canvas.py:1642-1658 | Starting and at once ending autotracking emits nothing. |
| Selection.DeSelect | libs/canvas.py:724-738 | Deselecting empties both selections, ends autotracking (emitting its entry only when that records a change), and leaves the shapes and the armed edits alone. |
| Selection.SelectShape | libs/canvas.py:470-479 | Selecting shape k leaves exactly k selected, after the deselection's signals. |
| Selection.DeSelectIdempotent | libs/canvas.py:724-738 | Deselecting twice is the same as deselecting once, and the second time emits nothing. |
| Selection.TopmostBelow | libs/canvas.py:485-523 | The shape picked by a click is the highest-indexed visible shape containing the point; there is none exactly when no visible shape contains it. |
| Selection.SelectedShapeBoundary | libs/canvas.py:1692-1704 | A click counts as on the selected box exactly when it lies in the box or within epsilon of one of its corners. |
| Selection.SelectShapePointPicks | libs/canvas.py:485-523 | A click on or near the selected box keeps the selection. Any other click selects the hovered shape, or else the topmost visible shape under the click, or nothing. |
| Selection.SelectShapePointEvents | libs/canvas.py:485-523 | A click emits exactly the signal of ending the autotracking session on the selected shape when it lands away from that shape's box. This holds whether it then selects a hovered shape, the topmost hit or nothing. Any other click emits nothing. |
| Selection.DeSelectEvents | libs/canvas.py:724-738 | Deselecting emits the autotracking session's signal exactly when a shape was selected while tracking, and only if that session records a change. |
| Selection.Remove | libs/canvas.py:525-553 | Removing an index from the group drops exactly that index and keeps the rest. |
| Selection.PicksTopmost | libs/canvas.py:485-523 | Away from the selected box and with nothing hovered, the topmost visible shape under the click is selected and the drag offsets are taken from its box. |
| Selection.ShiftClickToggles | libs/canvas.py:525-553 | With a group of two or more, a shift-click on the topmost hit shape toggles its membership and keeps the other members; with no hit nothing changes. |
| Selection.ShiftClickPairs | libs/canvas.py:525-553 | With one selected shape, a shift-click on another shape makes a group of the two, in that order, with no single selection. |
| Selection.ShiftLoopEvents | libs/canvas.py:525-553 | A shift-click emits exactly the autotracking session's end when it pairs a tracked single selection with another shape it hits. Growing or shrinking a group, and a click that pairs nothing, emit nothing. |
| Selection.IntRangesMeet | libs/canvas.py:555-596 | Two integer ranges built with `range` share an element exactly when the larger start is below the smaller end. |
| Selection.DragHitIsSetIntersection | libs/canvas.py:555-596 | The rubber band catches a shape exactly when the shape is visible and the integer x and y ranges of band and shape intersect. |
| Selection.NewHitsSound | libs/canvas.py:555-596 | Every shape the band adds is caught by it and was not already selected. |
| Selection.NewHitsComplete | libs/canvas.py:555-596 | Every caught shape that was not already selected is added. |
| Selection.DragSelectionAppends | libs/canvas.py:555-596 | The band appends the newly caught shapes, in list order, after the existing group; a group of one is also the single selection. |
| Edits.Horizontalcut | libs/canvas.py:1386-1430 | Without a selection nothing happens. Otherwise the shape keeps the top piece; one copy holding the bottom piece is appended and selected; the cut flag and the saved click are cleared. |
| Edits.Verticalcut | libs/canvas.py:1432-1476 | The shape keeps the left piece; one copy holding the right piece is appended and selected; the flag and the saved click are cleared. |
| Edits.Crosscut | libs/canvas.py:1478-1563 | The shape keeps the top-left quadrant; three copies are appended, and the last one (bottom-right) is selected; the flag and the saved click are cleared. |
| Edits.HorizontalcutTiles | libs/canvas.py:1386-1430 | After the cut, the shape and its copy share the cut edge, tile the original box and carry the same label; all other shapes are untouched. |
| Edits.VerticalcutTiles | libs/canvas.py:1432-1476 | After the cut, the shape and its copy share the cut edge and tile the original box; all other shapes are untouched. |
| Edits.CrosscutTiles | libs/canvas.py:1478-1563 | After the cut, the four quadrants tile the original box; all other shapes are untouched. |
| Edits.ResizeSelected | libs/canvas.py:1565-1609 | Only the selected shape is resized; the selection is kept, and the resize flag and the saved click are cleared. |
| Edits.ResizeSelectedInImage | libs/canvas.py:1565-1609 | A resize at a click inside the image keeps all shapes inside the image. |
| Edits.CancelCutShape | libs/canvas.py:1635-1640 | All four edit flags and the saved click are cleared and nothing else changes. |
| Edits.MinOf | libs/canvas.py:1617-1621 | The picked index belongs to the group and is the lowest one. |
| Edits.MergeShape | libs/canvas.py:1611-1633 | Fewer than two selected shapes is a no-op. Otherwise the lowest-indexed member is overwritten with the group box and no other shape changes. |
| Edits.MergeShapeTight | libs/canvas.py:1611-1633 | The merged shape is a clockwise rectangle holding every selected vertex, and it lies within any box that holds them all. |
| Edits.RotateSelected | libs/canvas.py:1232-1250 | A rotation entry is emitted exactly when a selected shape can be rotated. Then only that shape changes; otherwise nothing does. |
| Edits.RotateSelectedTwice | libs/canvas.py:1232-1250 | Rotating the selected rectangle twice restores the canvas state. |
| Edits.ClickMoveSelected | libs/canvas.py:1252-1365 | A click-move entry is emitted exactly when the selected shape is placed; only that shape changes. |
| Edits.ClickMoveSelectedFits | libs/canvas.py:1252-1365 | A selected shape no larger than the image is always placed inside the image, with the same size, and an entry is emitted. |
| Edits.KeyPress | libs/canvas.py:994-1090 | Without a selection, or while autotracking, an arrow key does nothing. Otherwise only the selected shape is nudged, and an entry with its mode, word and pixel count is emitted exactly when the nudge changes it. |
| Edits.KeyPressInImage | libs/canvas.py:994-1090 | Arrow keys keep all shapes inside the image. |
| Edits.AutotrackingMove | libs/canvas.py:240-249 | Mouse moves while autotracking keep the selection and emit nothing. |
| Edits.AutotrackingMoveInImage | libs/canvas.py:240-249 | Dragging inside the box, or jumping to the cursor, keeps every shape inside the image and keeps the offsets consistent. |
| Edits.MousePress | libs/canvas.py:299-363 | A press keeps the canvas valid and the number of shapes, and emits something only when a shape is selected. |
| Edits.MousePressShiftEndsTracking | libs/canvas.py:324-339 | A left shift-press with nothing armed: on a group of one or more it emits the session's end exactly when it pairs a tracked selection with another shape; on an empty group it emits as a plain press does. |
| Edits.MousePressStartsGroupMove | libs/canvas.py:340-348 | A left control-press on a group of two or more, with a previous point, inside a member's box sets the group-move flag, anchors the drag at the press and stores the boundary's offsets from it, emitting nothing. Anywhere else it changes nothing. |
| Edits.GroupMovePressReady | libs/canvas.py:340-348 | For a group inside the image, the state a group-move press leaves meets every premise of the group drag's containment guarantee. |
| Drag.MultiShapeBoundaryFits | libs/canvas.py:615-632 | The boundary of a group inside the image is an ordered box inside the image. |
| Edits.MousePressEndsTracking | libs/canvas.py:299-363 | A plain left press with nothing armed, or a right press in edit mode, emits the autotracking session's signal exactly when it lands away from the tracked selected box. Otherwise it emits nothing. |
| Edits.MousePressKeepsSelectionWhenArmed | libs/canvas.py:303-322 | While click-move or an edit is armed, a left click changes neither the selection nor the armed edits. |
| Edits.MousePressSavesOnlyAcceptedClicks | libs/canvas.py:307-322 | The click is saved only for a selected shape with click-move off. For a cut it must lie strictly inside the shape's box; for a resize it must lie strictly inside the image. |
| Edits.MousePressClickMoveInside | libs/canvas.py:307-310 | With click-move armed, shapes change only for a click strictly inside the image, and such a click performs the click-move. |
| Text.NatToString | labelImg.py:2155-2157 | The count renders as decimal digits with no leading zero, one digit exactly for numbers below ten. |
| Text.NatToStringRoundTrip | labelImg.py:2155 | Reading the rendered digits back gives the number. |
| Text.NatToStringInjective | labelImg.py:2155 | Different counts render differently. |
| Text.LabelSet | labelImg.py:1765 | The set holds exactly the labels of the list. |
| Text.LabelSetMany | labelImg.py:1765 | The list has more than one distinct label exactly when some label differs from the first. |
| Text.UndoTextSelectCases | labelImg.py:2147-2158 | One shape gives its label; several with distinct labels give "n Shapes (다중 라벨)"; several with one label give "n Shapes (label)". |
| Text.KeypressText | labelImg.py:2135-2145 | The arrow-key entry is the mode's action word, then the direction and pixel count in parentheses, then the label in parentheses. |
| Text.KeypressTextDistinguishesModes | labelImg.py:2135-2145 | Entries of different arrow modes never share a name. |
| History.Snapshot | labelImg.py:1972-1980 | A snapshot holds one record per shape, in list order, with its label, corners and difficult flag. |
| History.HiddenIndices | labelImg.py:1982-1989 | The hidden list holds exactly the indices of hidden shapes, in increasing order. |
| History.Reload | labelImg.py:1333-1361 | Reloading gives one shape per record, with its label and flag, inside the image, and hidden exactly at the recorded indices. |
| History.ReloadSnapshot | labelImg.py:1972-2002 | Taking a snapshot and reloading it gives back the same shapes. |
| History.SnapshotReload | labelImg.py:1972-2002 | Reloading a snapshot of in-image shapes and taking a snapshot again gives the same records. |
| History.UndoAppend | labelImg.py:2005-2010 | Exactly one entry with the given name is pushed on the undo stack, the rest of it is kept, and the redo stack is emptied. |
| History.UndoAppendSyncs | labelImg.py:2005-2010 | After a push, the top undo entry describes exactly the shapes on the canvas. |
| History.Restore | labelImg.py:1991-2042 | Restoring an entry reloads its shapes. In edit mode the last shape is selected when none is hidden; in create mode, or with a hidden shape, nothing is, because the list's selection handler acts only in edit mode (labelImg.py:1407-1411). Autotracking is ended and the edit flags are cleared. |
| History.Undo | labelImg.py:2013-2042 | With two or more entries, the top entry moves to the redo stack and the entry below is restored, in the current mode; otherwise the stacks and the shapes are unchanged. The undo checker is always lowered afterwards. |
| History.Redo | labelImg.py:2044-2072 | With a redo entry, it moves back onto the undo stack and is restored, in the current mode; otherwise the stacks and the shapes are unchanged. |
| History.UndoRedoNoOp | labelImg.py:2013-2051 | With the undo checker down, undo with at most one entry and redo with none change nothing. |
| History.UndoKeepsFirst | labelImg.py:2013-2020 | Undo never pops the file-open entry and never loses an entry between the two stacks. |
| History.UndoRedoSync | labelImg.py:2013-2072 | After an undo or redo that does something, the canvas shows exactly the top undo entry. |
| History.UndoThenRedo | labelImg.py:2013-2072 | Undo followed by redo restores both stacks and, from a synced canvas, the shapes. |
| History.RedoThenUndo | labelImg.py:2013-2072 | Redo followed by undo restores both stacks and, from a synced canvas, the shapes. |
| History.AppendAfterUndoDropsRedo | labelImg.py:2005-2010 | A new edit after an undo empties the redo stack and keeps the undo entries below. |
| History.ExecutedList | labelImg.py:2074-2090 | The history list shows every entry of both stacks, with the current entry on the row of the top undo entry. |
| History.ExecutedListStable | labelImg.py:2074-2090 | Undo and redo leave the history list unchanged and move the current row down or up by one. |
| History.ShiftTopKeepsRows | labelImg.py:2074-2090 | Moving the top undo entry onto the redo stack leaves the list of names shown unchanged. |
| History.UndoAsWritten | labelImg.py:2013-2042 | As written, a no-op undo raises the undo checker during autotracking and leaves it raised. |
| History.NoOpUndoSilencesAutotracking | labelImg.py:2013-2072 | As written, after a no-op undo or redo during a tracking session that moved the box, autotracking stays on but ending it records nothing. |
| History.NoOpUndoKeepsAutotrackingEntry | labelImg.py:2013-2072 | With the undo checker reset on every path, the same session's entry is still recorded when it ends. |
| Checks.CheckShapesPoints | labelImg.py:2816-2839 | It accepts the shapes exactly when none of them is degenerate. |
| Checks.DegenerateThresholds | labelImg.py:2816-2839 | Boxes at most 1 px wide or high are always rejected. Boxes wider and higher than 2 px are always accepted. Boxes over 1 px that keep clear of the edges by more than 1 px are accepted. |
| Checks.EdgeSliverRejected | labelImg.py:2816-2839 | A 2 px wide box on the left edge is rejected. |
| Checks.PresetChecker | labelImg.py:1528-1540 | One flag per preset, true exactly when its maximum corner fits within the image size. |
| Checks.PresetFitsIffInImage | labelImg.py:1528-1540 | For presets with non-negative corners, the flag says exactly whether the preset lies in the image. |
| Lists.RemoveFirst | labelImg.py:1103 | Removing a path drops one occurrence and keeps every other element. |
| Lists.AddRecentFile | labelImg.py:1101-1106 | The path goes to the front. Only the oldest entry of a full list may be dropped. No duplicates are introduced, and the list never grows past seven. |
| Lists.AddRecentFileIdempotent | labelImg.py:1101-1106 | Adding the same path twice is the same as adding it once. |
| Lists.NextBoxIndex | labelImg.py:1431-1450 | A row is chosen exactly when the list is not empty, and it is a valid row. |
| Lists.PrevBoxIndex | labelImg.py:1452-1471 | For a non-empty list and a remembered row at most one past the end, a valid row is chosen. |
| Lists.NextPrevInverse | labelImg.py:1431-1471 | Next and previous undo each other, wrapping from the last row to the first and back. |
| Lists.NoRowStartsAtFirst | labelImg.py:1431-1471 | Without a remembered row, both directions select the first row. |
| Controller.Opened | labelImg.py:2426 | Opening a file leaves a single "파일 열기" entry, no redo, and a canvas synced with it. |
| Controller.Record | labelImg.py:2116-2145 | Each emitted signal pushes one entry, named by its text and the selected label, and the entries appear in order. |
| Controller.RecordOne | labelImg.py:2116-2123 | One signal is one push. |
| Controller.ApplyCut | labelImg.py:1678-1735 | Firing an edit leaves a shape selected and clears that edit's flag and the saved click. |
| Controller.ListReselect | labelImg.py:1407-1411 | After the label list's reselection, the selected piece is also the whole group; shapes and selection are unchanged. |
| Controller.CutMethod | labelImg.py:1678-1735 | A command changes anything only with a selection, click-move and autotracking off, and no other edit armed. Its first call arms it. The second call performs the edit, disarms it and pushes one entry "<edit> (<label>)". After a cut, the new piece is the selection and the whole group. |
| Controller.CancelCutMethod | labelImg.py:1843-1849 | Cancel clears every edit flag and the saved click without touching shapes, selection or history. |
| Controller.ArmThenFire | labelImg.py:1678-1735 | Arm then fire pushes exactly one entry and ends with nothing armed. |
| Controller.OtherEditBlocked | labelImg.py:1678-1735 | While one edit is armed, every other edit command does nothing. |
| Controller.ClickmoveShapeMethod | labelImg.py:1747-1750 | Click-move is armed only with a selection, no edit armed and autotracking off; nothing else changes. |
| Controller.RotateShapeMethod | labelImg.py:1752-1754 | Rotation applies only with a selection and autotracking off, and then pushes one "라벨 박스 회전 (<label>)" entry. |
| Controller.AutotrackingLabelMethod | labelImg.py:1737-1745 | Checking starts tracking and turns off click-move. Unchecking stops it and pushes an entry exactly when the box moved and the undo checker is down. |
| Controller.AutotrackingSessionSilentWithoutMove | labelImg.py:1737-1745 | Switching autotracking on and straight off again adds no history entry. |
| Controller.KeyPressMethod | labelImg.py:994-1090 | An arrow key pushes an entry exactly when it moved the selected shape. |
| Controller.KeyPressMethodText | labelImg.py:2135-2145 | A nudge that changes the shape pushes exactly one entry. It names the current arrow mode, the direction word and pixel count the nudge recorded, and the selected label. |
| Controller.PressMethod | libs/canvas.py:299-363 | A mouse press pushes one entry per emitted signal, in order. |
| Controller.PressRecordsTracking | labelImg.py:2121-2122 | Suppose a plain press lands away from a tracked box that has moved, with the undo checker down. It then pushes exactly one autotracking entry for that shape. A press on or near the box pushes nothing. |
| Controller.ShiftPressRecordsTracking | labelImg.py:2121-2122 | A shift-press that pairs a tracked, moved selection with another shape, with the undo checker down, pushes exactly one autotracking entry for that shape. On a group, a shift-press that pairs nothing tracked pushes nothing. |
| Controller.ClickMovePressRecords | labelImg.py:2116-2117 | A click-move press inside the image pushes one "라벨 박스 클릭 이동 (<label>)" entry and keeps the shape inside the image. |
| Controller.KeptBelow | labelImg.py:2874-2909 | The rows surviving a deletion are exactly those not deleted, in increasing order. |
| Controller.KeptPrefix | labelImg.py:2874-2909 | Rows below every deleted row keep their position. |
| Controller.MergeKeep | labelImg.py:1756-1798 | A merge keeps every shape outside the group and the lowest member, which keeps its row. |
| Controller.MergeApply | labelImg.py:1756-1798 | After the merge, the merged shape is the only selection. |
| Controller.MergeApplyShapes | labelImg.py:1756-1798 | The merged shape holds the group box, the chosen label and the flag; every kept shape is unchanged. |
| Controller.GroupLabelsDifferIff | labelImg.py:1756-1798 | The source's test of more than one distinct label in the group holds exactly when some member's label differs from the first member's. |
| Controller.MergeShapeMethod | labelImg.py:1756-1798 | A merge of fewer than two, or of distinct labels with a cancelled prompt, changes nothing. Otherwise the other members are deleted. The result is difficult when the flags were mixed. Exactly one entry naming the group and the result label is pushed. |
| Controller.ModesStayExclusive | labelImg.py:1678-1750 | Arming, firing, cancelling and toggling click-move or autotracking keep at most one edit armed, and none while click-move is on. |
| Controller.UndoRedoKeepModes | labelImg.py:2013-2072 | Undo and redo keep the modes exclusive. |

## Left out

- Painting, cursors, tooltips, colours and repaint calls: rendering only. Snapshots hold no colours, and reload recomputes them from the label.
- Zoom, scrolling and the widget-to-image coordinate transform: clicks arrive in image coordinates.
- `intersectionPoint`, `closeEnough` and `nearestVertex` need a square-root distance. The border point of a vertex drag and the vertex under the cursor are inputs (`edgePoint`, `hover`).
- `containsPoint` and `moveBy` live in `libs/shape.py`, which is not part of this model. A point is in a shape when it lies in the closed bounding box, and moving adds the delta to every corner.
- Drawing new shapes, mouse release, double click, copy and preset placement: outside the editing core. The drawing branch of a press leaves the canvas unchanged.
- File and process I/O, settings, dialogs and menus are left out. A label prompt is an `Option<string>` input.
- The label-list widget mirroring is left out, except for one case. After a cut, the new piece's row is reselected, which makes that piece the group of one (`Controller.ListReselect`). The visibility check box is a `visible` field of the shape.
- Nudge.MoveOnePixel: where the source indexes the shape with a slot `vertexPosition` left empty, it raises a TypeError, possibly after moving the vertices in the slots it read first. The model flags such a case as `raised` and leaves the shape as it was, since a handler cut short by an exception is not modelled. Cases that read only filled slots are modelled as written, even when other slots are empty.
- Lists.PrevBoxIndex: a remembered row two or more past the end names no item, and the source fails there; the model answers None.
- History.Restore: when a reload leaves no shapes, the source keeps a stale selected shape; the model selects nothing.
- Controller.Record: the signals of one command fire on the same shapes, so every entry captures the same canvas. Any intermediate repaint is not modelled.
- Edits.KeyPress: the arrow handler's Shift and Control combinations are folded into a modifier that picks the step (1, 10 or 100). The `reversed` reduction is kept but never requested by the handler.
- Selection.DeSelect: the slot of the `selectionChanged(False)` signal (labelImg.py:1290-1292), which switches autotracking off, is folded into the deselection; the rest of that slot only enables and disables actions.
- Coordinates are exact reals: Qt's float rounding is not modelled.

## Findings

| source | as written | input that shows it | evidently intended | confidence | as-written member | corrected member |
|---|---|---|---|---|---|---|
| labelImg.py:2013-2072 | Undo and redo raise `autotracking_undochecker` while autotracking is on, but lower it again only inside the branch that pops an entry. | Autotracking on, the box dragged, only the file-open entry on the undo stack, then undo. The undo checker stays raised, autotracking stays on, and ending the session records nothing. Every later session is silent too, until an undo or redo succeeds. | The undo checker is lowered on every path, so a no-op undo or redo does not swallow the tracking entry. | not executed | History.UndoAsWritten, History.NoOpUndoSilencesAutotracking | History.Undo, History.NoOpUndoKeepsAutotrackingEntry |
