# Shapes editor core, modelled in Dafny

This project models the editing core of a small WinForms vector-shape editor: the shapes and their
`Move`/`Resize`/`Clone`, the scene (an ordered list whose order is the z-order) with its
topmost-first hit test, the undoable commands and the two-stack undo/redo history, the `ColorInfo`
ARGB packer, and the interaction state machine of the main window. That state machine covers mouse
down, move and up, the resize and rotation handles, angle normalisation, and delete, copy and paste.

Modules, one file each:

- `Vectors` (vectors.dfy): `Vec2` as a value. Also `Mul`, the real product, with the few facts about
  products that the distance proofs use.
- `Colors` (colors.dfy): a colour as its four ARGB bytes. `ColorInfo` holds 32-bit components, and
  `ToArgbInt` is exact `bv32` arithmetic.
- `Shapes` (shapes.dfy): one `class Shape`.
  - Its fields are the base fields of the abstract `Shape` plus a `figure` value holding the fields
    of the concrete subclass (circle, rectangle, ellipse, triangle, line segment).
  - `Move`, `Resize` and `Clone` change the object in place or allocate a new one. Each is specified
    by a function on `ShapeValue`, the snapshot of all fields.
- `Scenes` (scene.dfy):
  - The hit tests, as pure predicates.
  - `RemoveFirst`, which is `List<T>.Remove`.
  - The `Scene` class, whose `shapes` sequence is reassigned by `Add`, `Remove` and `Clear`.
  - `FindShapeAt`, a downward loop proved against `IsTopmostAt`.
- `Commands` (commands.dfy): the three commands. Each holds references to the scene or the shape it
  changes. Its effect is stated by the two-state predicates `Executed` and `Undone`.
- `History` (history.dfy): `CommandHistory` with its undo and redo stacks as sequences whose last
  element is the top.
- `Geometry` (geometry.dfy): the pure helpers of the main window.
  - Handle boxes, bounds, centre, rotation handle.
  - The anchor and box arithmetic of a handle drag.
  - The handle search loop.
  - `NormalizeDeg`, two while loops proved against the closed form `Normalized`.
- `UI` (mainform.dfy): `MainForm`.
  - It keeps the source's flat controller fields. `State()` views them as one `FormState` record.
  - `CurrentGesture()` names the branch `MouseMove` takes: rotating, resizing, dragging or idle.
  - Each mouse handler is specified against pure step functions (`RotationGrab`, `ResizeGrab`,
    `RotationStep`, `HandleResizeStep`). Lemmas state what those steps guarantee.

Coordinates are reals and mouse positions are integers. The model follows the code, not the
intent that a whole drag is one undo step: `MouseMove` moves the shape directly, and `MouseUp`
records as a move command only the travel since the last `MouseMove`, which it moves the shape by
once more. So a drag whose last move event is at the release point leaves nothing to undo
(`UI.DragReleasedInPlace`).
Undoing a delete always appends the shape on top, even when the delete removed nothing
(`Commands.ExecuteThenUndo`).

## Model

| member | source | states |
|---|---|---|
| Vectors.PlusNegatedCancels | Commands/MoveShapeCommand.cs:16-18 | adding a delta and then its component-wise negation gives the point back |
| Colors.FromColor | Models/ColorInfo.cs:11-12 | each component of the record is the corresponding byte of the colour, so all four are in 0..255 |
| Colors.ColorInfo.ToArgbInt | Models/ColorInfo.cs:14 | A shifted to the top byte, then R, G and B, or-ed into one 32-bit word, as the C# int bit pattern; its layout is stated by Colors.ArgbLayout and its inverse by Colors.ArgbRoundTrip |
| Colors.ArgbLayout | Models/ColorInfo.cs:14 | with components in 0..255, B is in bits 0-7, G in 8-15, R in 16-23 and A in 24-31 of the packed word |
| Colors.ArgbRoundTrip | Models/ColorInfo.cs:11-14 | unpacking the word packed from a colour by shift and mask gives the colour back |
| Colors.ArgbOverlapsOutsideBytes | Models/ColorInfo.cs:14 | outside 0..255 the packing is not injective: a green of 256 packs like a red of 1 |
| Shapes.Shape.constructor | Models/Shape.cs:7-15 | a new object holds exactly the field values it is initialised with |
| Shapes.Shape.Move | Models/Shape.cs:18 | the new field values are the old ones moved by the delta (ShapeValue.Moved), as each subclass writes out its translation |
| Shapes.Shape.Resize | Models/Triagle.cs:26-34 | the new field values are the old ones resized by the factor (ShapeValue.Resized) |
| Shapes.Shape.Clone | Models/Circle.cs:27-36 | a fresh object holding the clone's values (ShapeValue.Cloned), with the original unchanged |
| Shapes.ShapeValue.Moved | Models/Shape.cs:18 | each override of Move: circle, ellipse and line add the delta to Position, a line also to End, a triangle to its three vertices only; MoveRoundTrip, MoveKeepsShape and the translation lemmas state its properties |
| Shapes.ShapeValue.Resized | Models/Shape.cs:19 | each override of Resize: the radius or width and height times the factor, a triangle scaled about its centroid, a line's end scaled about its start; ResizeScalesExtent, TriangleResizeKeepsCentroid, LineResizeScalesFromStart and ResizeByOneIsIdentity state its properties |
| Shapes.ShapeValue.Cloned | Models/Shape.cs:20 | each override of Clone: a new object with the fields that override copies and the constructor defaults elsewhere; CloneCopies states which |
| Shapes.NewShape | Models/Shape.cs:7-15 | the property initialisers of Shape: position (0,0), LightGray fill, Black stroke, rotation 0, as NewShapeDefaults states |
| Shapes.MoveRoundTrip | Models/LineSegment.cs:15-19 | moving a circle, ellipse, triangle or line by d and then by -d restores every field |
| Shapes.MoveKeepsShape | Models/EllipseShape.cs:27-30 | Move of a non-rectangle keeps colours and rotation; a circle keeps its radius and an ellipse its size while the position moves by d; a triangle's position is untouched; a line keeps End - Position |
| Shapes.TriangleMoveTranslatesVertices | Models/Triagle.cs:19-24 | a triangle's Move adds d to each of P1, P2 and P3 |
| Shapes.LineMoveTranslatesEndpoints | Models/LineSegment.cs:15-19 | a line's Move adds d to both Position and End |
| Shapes.ResizeScalesExtent | Models/EllipseShape.cs:32-36 | Resize of a non-rectangle keeps position, colours and rotation; a circle's radius (as in Circle.cs) and an ellipse's width and height are multiplied by the factor |
| Shapes.TriangleResizeKeepsCentroid | Models/Triagle.cs:28-33 | resizing a triangle about its centroid leaves the centroid where it was |
| Shapes.LineResizeScalesFromStart | Models/LineSegment.cs:21-26 | a line's Resize keeps the start and scales the vector End - Position by the factor |
| Shapes.ResizeByOneIsIdentity | Models/Triagle.cs:31-33 | Resize(1) changes nothing on a circle, ellipse, triangle or line |
| Shapes.CloneCopies | Models/Triagle.cs:36-46 | what each clone copies: figure and stroke always, position except for a triangle (which keeps (0,0)), fill except for a line, rotation only for the ellipse; the rest take the new-object defaults |
| Shapes.NewShapeDefaults | Models/Shape.cs:7-15 | a new shape is at (0,0) with LightGray fill, Black stroke and rotation 0; a new circle has radius 50; a new ellipse is 100 by 60 |
| Scenes.RemoveFirst | Models/Scene.cs:14 | removing an absent shape leaves the list as it is |
| Scenes.RemoveFirstCounts | Models/Scene.cs:14 | removal takes away one occurrence of the shape, when there is one, and nothing else (as multisets) |
| Scenes.RemoveFirstCutsFirstOccurrence | Models/Scene.cs:14 | removal cuts out exactly the first occurrence and keeps the order of the rest |
| Scenes.RemoveAppended | Commands/CreateShapeCommand.cs:16-18 | appending a shape that was not in the list and removing it gives the list back |
| Scenes.ReappendRestoresWhenUnique | Commands/DeleteShapeCommand.cs:16-18 | for a shape that occurs at most once, removing and re-appending it restores the list if and only if it was the last (topmost) |
| Scenes.AbsentReappendAdds | Commands/DeleteShapeCommand.cs:16-18 | removing an absent shape and appending it adds it on top |
| Scenes.RedoOfDeleteRestores | Commands/CommandHistory.cs:27-35 | for a shape occurring at most once, removing, appending and removing again ends where the first removal did |
| Scenes.CreateRedoOfPresentShapeReorders | Commands/CommandHistory.cs:27-35 | creating a shape already at the bottom of [a, b], undoing and redoing gives [b, a, a], not the [a, b, a] the create gave |
| Scenes.DeleteRedoOfDuplicateReorders | Commands/CommandHistory.cs:27-35 | deleting a from [a, a, b], undoing and redoing gives [b, a], not the [a, b] the delete gave |
| Scenes.DistanceAgainstTolerance | Models/Scene.cs:141-146 | for a non-negative tolerance, the square-root distance is within it if and only if the squared distance is within its square |
| Scenes.DistSqPositive | Models/Scene.cs:130-135 | distinct points are a positive squared distance apart, so the projection never divides by zero |
| Scenes.Sign | Models/Scene.cs:123-126 | the cross product telling which side of the line through p2 and p3 the point p1 lies on; zero at either of those points (VerticesInTriangle) |
| Scenes.PointInTriangle | Models/Scene.cs:111-121 | inside or on the triangle when the three signs are not some negative and some positive; PointInTriangleSameSigns restates it as all of one sign |
| Scenes.ClosestOnSegment | Models/Scene.cs:130-137 | the projection of the point on the line through the segment, its parameter clamped to [0, 1]; it is the start at the start and the end at the end (ClosestToStart, ClosestToEnd) |
| Scenes.PointNearSegment | Models/Scene.cs:128-139 | within the tolerance of the start for a zero-length segment, otherwise of the closest point; DegenerateSegment and SegmentEndpointsNear state its properties |
| Scenes.CircleHit | Models/Scene.cs:39-44 | the squared distance from the centre is at most the squared radius; CircleHitIsClosedDisc relates it to the distance |
| Scenes.RectangleHit | Models/Scene.cs:46-64 | inside the closed box, or within 6 of an edge line along that edge's span extended by 6; RectangleHits and RectangleMissesFarPoints state both directions |
| Scenes.EllipseHit | Models/Scene.cs:66-86 | never for a non-positive half-axis; otherwise a normalised value at most 1, or within the rim tolerance of 1; EllipseHits states its properties |
| Scenes.TriangleHit | Models/Scene.cs:88-99 | inside the triangle or within 6 of one of its three edges; TriangleHitAtVertices states it holds at the vertices |
| Scenes.IsPointInShape | Models/Scene.cs:35-109 | dispatches on the kind of shape to the test of that kind, with a line tested against tolerance 8; HitIgnoresRotation states the rotation plays no part |
| Scenes.CircleHitIsClosedDisc | Models/Scene.cs:39-44 | a circle of non-negative radius is hit exactly on the closed disc |
| Scenes.RectangleHits | Models/Scene.cs:46-63 | the closed box hits, and so does each point within 6 of one of the four edge lines inside the edge's span extended by 6 |
| Scenes.RectangleMissesFarPoints | Models/Scene.cs:46-63 | a point more than 6 outside the box misses |
| Scenes.HitIgnoresRotation | Models/Scene.cs:35-109 | no hit test depends on the rotation |
| Scenes.EllipseHits | Models/Scene.cs:66-86 | a degenerate ellipse never hits; otherwise every point with normalised value at most 1 hits, and the centre's value is 0 |
| Scenes.PointInTriangleSameSigns | Models/Scene.cs:111-121 | inside if and only if the three signs are all non-negative or all non-positive |
| Scenes.VerticesInTriangle | Models/Scene.cs:111-126 | each vertex passes the sign test of its triangle |
| Scenes.DegenerateSegment | Models/Scene.cs:132-133 | a zero-length segment is near exactly the points within the tolerance of its start |
| Scenes.ClosestToStart | Models/Scene.cs:135-137 | the clamped projection of the start is the start |
| Scenes.ClosestToEnd | Models/Scene.cs:135-137 | the clamped projection of the end is the end |
| Scenes.SegmentEndpointsNear | Models/Scene.cs:128-139 | both endpoints are near their segment for any non-negative tolerance |
| Scenes.TriangleHitAtVertices | Models/Scene.cs:88-99 | a triangle is hit at each of its vertices |
| Scenes.LineHitAtEndpoints | Models/Scene.cs:101-104 | a line is hit at both endpoints |
| Scenes.Scene.constructor | Models/Scene.cs:9 | a new scene is empty |
| Scenes.Scene.Add | Models/Scene.cs:13 | the shape is appended as the last, topmost element, and nothing else changes |
| Scenes.Scene.Remove | Models/Scene.cs:14 | the first occurrence of the shape is removed (RemoveFirst) |
| Scenes.Scene.Clear | Models/Scene.cs:15 | the scene becomes empty |
| Scenes.Scene.FindShapeAt | Models/Scene.cs:24-33 | the result is the shape at the highest index that is hit, or null when none is |
| Scenes.Scene.TopmostIsUnique | Models/Scene.cs:24-33 | only one result meets FindShapeAt's specification |
| Commands.Command.Execute | Commands/CreateShapeCommand.cs:16 | create appends the shape, delete removes its first occurrence, move moves the shape by the delta |
| Commands.Command.Undo | Commands/MoveShapeCommand.cs:18 | create removes, delete appends, move moves by the component-wise negated delta |
| Commands.ExecuteThenUndo | Commands/MoveShapeCommand.cs:16-18 | execute then undo restores a moved shape other than a rectangle; restores the scene after creating an absent shape; after deleting an absent shape, leaves it appended; after deleting a shape that occurs once, restores the scene if and only if it was topmost |
| History.CommandHistory.constructor | Commands/CommandHistory.cs:7-8 | both stacks start empty |
| History.CommandHistory.Execute | Commands/CommandHistory.cs:10-15 | the command runs, is pushed on the undo stack, and the redo stack is emptied |
| History.CommandHistory.Undo | Commands/CommandHistory.cs:17-25 | an empty undo stack changes nothing; otherwise the top is popped, undone and pushed on the redo stack (so the total count is kept) |
| History.CommandHistory.Redo | Commands/CommandHistory.cs:27-35 | an empty redo stack changes nothing; otherwise the top is popped, executed and pushed on the undo stack |
| History.UndoThenRedo | Commands/CommandHistory.cs:17-35 | undo then redo on a non-empty undo stack restores both stacks |
| History.ExecuteUndoRedo | Commands/CommandHistory.cs:10-35 | Execute, Undo, Redo of one command leaves its target as Execute alone did, for a move of a non-rectangle, a create of a shape not in the scene and a delete of a shape occurring at most once; the stacks end as after Execute |
| History.UndoCreate | Commands/CommandHistory.cs:17-25 | undoing the creation of a shape that was not there takes the scene back and moves the command to the redo stack |
| History.CreateTwoThenUndoTwo | Commands/CommandHistory.cs:10-25 | creating a then b and undoing twice restores the scene and the undo stack, and leaves the redo stack with the create of a on top (LIFO) |
| Geometry.GetResizeHandles | UI/MainForm.cs:210-259 | one handle box per handle point |
| Geometry.HandlesContainTheirPoints | UI/MainForm.cs:217-253 | each 8 by 8 handle box is centred on its handle point and contains the pixel at that point |
| Geometry.HandleCounts | UI/MainForm.cs:210-259 | four handles for rectangles, ellipses and circles, three for a triangle, two for a line |
| Geometry.HandleBox | UI/MainForm.cs:217 | the 8 by 8 box whose top-left corner is HandleSize / 2 (integer division) left of and above the handle point |
| Geometry.HandlePoints | UI/MainForm.cs:210-259 | the handle points in index order: TL, TR, BL, BR of a rectangle or ellipse; right, left, bottom, top of a circle; a triangle's vertices; a line's start and end |
| Geometry.BoundsHoldPoints | UI/MainForm.cs:271-286 | a triangle's or line's bounds have non-negative size, hold every vertex or endpoint, and touch one on each side |
| Geometry.GetBounds | UI/MainForm.cs:261-290 | the box of a rectangle or ellipse, the square of side 2r around a circle, the min/max box of a triangle's vertices or a line's endpoints; BoundsHoldPoints states it is the smallest such box |
| Geometry.CenterOfShapes | UI/MainForm.cs:292-296 | the centre is the circle's position, the line's midpoint, or the middle of the rectangle's or ellipse's box |
| Geometry.GetCenter | UI/MainForm.cs:292-296 | the middle of the bounds; CenterOfShapes states it per kind |
| Geometry.GetRotationHandleCenter | UI/MainForm.cs:298-303 | the point 22 above the middle of the top edge of the bounds |
| Geometry.IsOnRotationHandle | UI/MainForm.cs:305-311 | the mouse is within 7 of the rotation handle centre, as a squared distance; RotationHandleHits relates it to the distance |
| Geometry.RotationHandleHits | UI/MainForm.cs:298-311 | the mouse is on the rotation handle if and only if it is within 7 of the point 22 above the top middle of the bounds |
| Geometry.FindHandle | UI/MainForm.cs:429-433 | the index of the first handle box containing the mouse, or -1 when none does |
| Geometry.FirstHandleUnique | UI/MainForm.cs:313-323 | the handle search has exactly one answer |
| Geometry.Anchor | UI/MainForm.cs:442-448 | the corner of the box opposite handle i; AnchorIsOppositeCorner states it |
| Geometry.BoxFromAnchor | UI/MainForm.cs:560-565 | the box spanned by the anchor and the mouse, at least 10 by 10, on the mouse's side of the anchor; BoxFromAnchorKeepsAnchor states its properties |
| Geometry.AnchorIsOppositeCorner | UI/MainForm.cs:442-448 | the anchor of handle i is the corner 3 - i: TL gives BR, TR gives BL, BL gives TR, BR gives TL |
| Geometry.BoxFromAnchorKeepsAnchor | UI/MainForm.cs:560-565 | width and height are at least 10, the anchor stays the corner away from the mouse, and when the drag spans at least 10 the opposite corner is under the mouse |
| Geometry.Normalized | UI/MainForm.cs:359-364 | the result lies in (-180, 180] and differs from the input by a whole number of turns |
| Geometry.NormalizedCharacterised | UI/MainForm.cs:359-364 | any value in (-180, 180] of the input's class is the normalised value (uniqueness) |
| Geometry.NormalizedIdentityInRange | UI/MainForm.cs:359-364 | angles already in (-180, 180] are returned unchanged |
| Geometry.NormalizeDeg | UI/MainForm.cs:359-364 | the two loops compute the normalised angle |
| UI.RotationGrabStartsRotating | UI/MainForm.cs:398-424 | after a rotation grab the form is rotating the same selected shape |
| UI.ResizeGrabStartsResizing | UI/MainForm.cs:427-485 | a resize grab from a settled form starts resizing, holding the grabbed handle |
| UI.RotationStepKeeps | UI/MainForm.cs:519-546 | rotating a rectangle or ellipse changes only its rotation, to the start rotation plus the mouse's turn, normalised into (-180, 180]; a circle is unchanged; a triangle or line keeps colours and rotation |
| UI.BoxResizeKeepsAnchor | UI/MainForm.cs:558-579 | a rectangle or ellipse handle resize keeps its variant, colours and rotation; width is max(10, abs(mx - ax)), height is max(10, abs(my - ay)); the anchor stays the corner |
| UI.CircleResizeFromStart | UI/MainForm.cs:582-586 | for any handle, the radius becomes max(5, start radius + horizontal travel) and the centre stays |
| UI.PointResizeMovesGrabbedOnly | UI/MainForm.cs:589-606 | a triangle or line handle resize moves only the grabbed vertex or endpoint, to its start plus the mouse travel |
| UI.PasteOffsetsCopy | UI/MainForm.cs:158-167 | the pasted copy has the geometry of the copied shape moved by (20, 20) |
| UI.RotationGrab | UI/MainForm.cs:398-424 | the rotation grab of MouseDown: rotating, with the centre, the starting mouse angle and the starting pose remembered; RotationGrabStartsRotating states it starts the rotating gesture |
| UI.RotationStart | UI/MainForm.cs:404-421 | the starting pose snapshot: a rectangle's or ellipse's rotation, a triangle's vertices, a line's endpoints, nothing for a circle |
| UI.ResizeGrab | UI/MainForm.cs:433-437 | the resize grab of MouseDown: the target, the handle box, its index and the mouse remembered, then the starting geometry; ResizeGrabStartsResizing states it starts the resizing gesture |
| UI.ResizeStart | UI/MainForm.cs:439-480 | the starting geometry snapshot: anchor and size of a rectangle or ellipse, radius and centre of a circle, a triangle's vertices, a line's endpoints |
| UI.RotationStep | UI/MainForm.cs:519-546 | the rotation branch of MouseMove; RotationStepKeeps states what it keeps and the angle it sets |
| UI.HandleResizeStep | UI/MainForm.cs:549-611 | the resize branch of MouseMove; BoxResizeKeepsAnchor, CircleResizeFromStart and PointResizeMovesGrabbedOnly state it per kind |
| UI.MainForm.constructor | UI/MainForm.cs:14-40 | an empty scene and history, nothing selected or copied, no gesture |
| UI.MainForm.GetHandleIndexAt | UI/MainForm.cs:313-323 | -1 without a selection, otherwise the first handle of the selected shape containing the mouse, or -1 |
| UI.MainForm.MouseDown | UI/MainForm.cs:393-496 | priority: the rotation handle grab, else the first resize handle grab, else the selection becomes the topmost hit (possibly null), and a left-button hit starts a drag from the mouse |
| UI.MainForm.BeginRotation | UI/MainForm.cs:398-424 | remembers centre, starting mouse angle and the starting pose |
| UI.MainForm.RememberRotationStart | UI/MainForm.cs:404-421 | snapshots the rotation of a rectangle or ellipse, a triangle's vertices, a line's endpoints |
| UI.MainForm.BeginResize | UI/MainForm.cs:433-437 | remembers the target, handle, index and mouse, then the starting geometry |
| UI.MainForm.RememberResizeStart | UI/MainForm.cs:439-480 | snapshots anchor and size of a rectangle or ellipse, radius of a circle, a triangle's vertices, a line's endpoints |
| UI.MainForm.MouseMove | UI/MainForm.cs:516-623 | by gesture: rotate from the snapshot, resize from the snapshot, move by the travel since the last event and remember the mouse, or change nothing |
| UI.MainForm.RotateSelected | UI/MainForm.cs:519-546 | the selected shape takes the value RotationStep gives |
| UI.MainForm.ResizeTarget | UI/MainForm.cs:549-611 | the resize target takes the value HandleResizeStep gives |
| UI.MainForm.MouseUp | UI/MainForm.cs:498-514 | every gesture ends; a move command for the travel since the last move event is executed and recorded only when dragging a selected shape and the mouse moved since; otherwise the history is unchanged |
| UI.MainForm.DeleteSelected | UI/MainForm.cs:142-150 | with a selection, a delete command removes it from the scene through the history and the selection clears; without one, nothing changes |
| UI.MainForm.CopySelected | UI/MainForm.cs:152-156 | the copied shape becomes a fresh clone of the selection |
| UI.MainForm.PasteShape | UI/MainForm.cs:158-167 | a fresh clone of the copied shape, moved by (20, 20), is created on top of the scene through the history; the copied shape is unchanged |
| UI.DragReleasedInPlace | UI/MainForm.cs:498-514 | a drag whose last move event is at the release point moves the shape by the whole travel and records nothing in the history |

## Left out

- Drawing: the `Draw` methods, `MainForm_Paint`, every `Cursor` assignment and `GetCursorForHandle`.
  They are rendering only.
- `Atan2Deg` and `RotatePoint` are floating-point trigonometry. They enter the model as function
  parameters of `MouseDown` and `MouseMove`, so nothing is claimed about rotated points beyond where
  they come from.
- Floating point: coordinates and angles are reals, so Move round trips and the centroid are exact.
  The float rounding of the source is not modelled. Neither is the underflow of the segment
  denominator of `PointNearSegment`, which the reals show to be positive for distinct endpoints.
- `Distance` with `Math.Sqrt` is modelled as a squared distance against the squared tolerance.
  `Scenes.DistanceAgainstTolerance` relates the two for any non-negative root.
- Shapes.ShapeValue.Moved, Shapes.ShapeValue.Resized and Shapes.ShapeValue.Cloned on a rectangle:
  RectangleShape.cs is not part of this model. The rectangle is given the ellipse's behaviour (same
  fields) only so that the commands and the form can act on it. No lemma claims anything about
  rectangle Move, Resize or Clone. The method contracts of `Shapes.Shape.Move`, `Resize` and
  `Clone`, of `Commands.Command.Execute` and `Undo`, and of `UI.MainForm.MouseMove`, `MouseUp` and
  `PasteShape` carry only that stand-in for a rectangle.
- Shapes.CloneCopies: states nothing about a rectangle, whose `Clone` is in RectangleShape.cs.
- Shapes.ResizeScalesExtent: states nothing about a rectangle, whose `Resize` is in RectangleShape.cs.
- Shapes.MoveKeepsShape: states nothing about a rectangle, whose `Move` is in RectangleShape.cs.
- Shapes.MoveRoundTrip: states nothing about a rectangle, whose `Move` is in RectangleShape.cs.
- Shapes.ResizeByOneIsIdentity: states nothing about a rectangle, whose `Resize` is in RectangleShape.cs.
- Commands.ExecuteThenUndo: the move round trip is stated for every shape except a rectangle.
- History.ExecuteUndoRedo: execute, undo, redo ends where execute alone did only when the shape
  occurs at most once (and, for a create, was absent; for a move, is not a rectangle). With a
  duplicate the undo removes the lower copy, so the z-order differs: Scenes.CreateRedoOfPresentShapeReorders
  and Scenes.DeleteRedoOfDuplicateReorders give the two cases.
- History.UndoThenRedo: states that both stacks are restored; the target's state is stated by
  History.ExecuteUndoRedo.
- `ICommand` is not part of this model. The three commands are one datatype whose methods are the
  interface's `Execute` and `Undo`.
- Scenes.ReappendRestoresWhenUnique: the delete-undo restore property is stated for a shape that
  occurs at most once in the scene. For a shape added twice, the first occurrence is removed but the
  shape comes back on top.
- `Vec2` construction and `ToPointF`: `Vec2` is a datatype, so `new Vec2(x, y)` having those
  coordinates, copies never aliasing (the snapshots of the rotation and resize grabs), and
  `ToPointF` carrying the same X and Y hold by construction.
- `SceneSerializer` (file I/O and JSON), `Program.Main` and `ColorInfo.ToColor`. `Color` is four
  bytes and nothing more.
- Menus, keyboard routing (`MainForm_KeyDown`), dialogs (`SaveScene`, `LoadScene`,
  `FillColorSelected`, `ShowHelp`), the `Add*` menu actions and `ResizeSelected`, which nothing calls.
- The hover branch of `MouseMove` only chooses a cursor. The model states that it changes no field.
- `Invalidate` (repainting) is not modelled.
