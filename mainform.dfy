/** The interaction state machine of the main window (UI/MainForm.cs): the controller fields, the
    mouse handlers without cursor and painting, and the delete and copy/paste actions. The
    trigonometry the rotation gesture uses (Atan2Deg, RotatePoint) is passed in as functions. */
module UI {
  import opened Vectors
  import opened Shapes
  import opened Scenes
  import opened Commands
  import opened History
  import opened Geometry

  datatype Option<T> = None | Some(value: T)

  datatype MouseButton = Left | Right | Middle | NoButton

  datatype MouseEvent = MouseEvent(x: int, y: int, button: MouseButton) {
    function Location(): Point {
      Point(x, y)
    }
  }

  /** The whole-pixel offset from p to q, as the float vector a command or Move receives. */
  function Offset(p: Point, q: Point): Vec2 {
    Vec2((q.x - p.x) as real, (q.y - p.y) as real)
  }

  /** Which branch of MouseMove runs. */
  datatype Gesture = Idle | Rotating | Resizing | Dragging

  /** Every mutable controller field of the form at one moment. */
  datatype FormState = FormState(
    selected: Shape?,
    isDragging: bool,
    lastMousePos: Point,
    copiedShape: Shape?,
    resizeTarget: Shape?,
    activeHandle: Option<RectF>,
    activeHandleIndex: int,
    handleStartMouse: Point,
    handleStartSize: Vec2,
    anchorPoint: Vec2,
    isRotating: bool,
    rotateCenter: Vec2,
    rotateStartAngleDeg: real,
    shapeStartRotationDeg: real,
    triP1Start: Vec2,
    triP2Start: Vec2,
    triP3Start: Vec2,
    lineStartStart: Vec2,
    lineEndStart: Vec2)
  {
    /** MouseMove's dispatch, in its order: rotation, then resizing, then dragging, else hovering. */
    function CurrentGesture(): Gesture {
      if isRotating && selected != null then Rotating
      else if resizeTarget != null && activeHandle.Some? && activeHandleIndex >= 0 then Resizing
      else if isDragging && selected != null then Dragging
      else Idle
    }

    /** No gesture in progress: the state MouseUp leaves behind. */
    predicate Settled() {
      !isDragging && !isRotating && resizeTarget == null && activeHandle.None? && activeHandleIndex == -1
    }
  }

  /** MouseDown on the rotation handle: remember the centre, the starting angle of the mouse about
      it, and the shape's starting pose. */
  function RotationGrab(s: FormState, v: ShapeValue, m: Point, atan2Deg: (real, real) -> real): FormState {
    var c := GetCenter(v);
    RotationStart(s.(isRotating := true, rotateCenter := c,
                     rotateStartAngleDeg := atan2Deg(m.y as real - c.y, m.x as real - c.x)), v)
  }

  /** The starting pose a rotation turns: the rotation of a rectangle or an ellipse, the vertices of
      a triangle, the endpoints of a line; nothing for a circle. */
  function RotationStart(s: FormState, v: ShapeValue): FormState {
    match v.figure
    case Rectangle(_, _) => s.(shapeStartRotationDeg := v.rotation)
    case Ellipse(_, _) => s.(shapeStartRotationDeg := v.rotation)
    case Triangle(a, b, c) => s.(triP1Start := a, triP2Start := b, triP3Start := c)
    case LineSegment(e) => s.(lineStartStart := v.position, lineEndStart := e)
    case Circle(_) => s
  }

  /** MouseDown on resize handle i of target: remember the handle, the mouse, and the shape's
      starting geometry. */
  function ResizeGrab(s: FormState, target: Shape, v: ShapeValue, hs: seq<RectF>, i: int, m: Point): FormState
    requires 0 <= i < |hs|
  {
    ResizeStart(s.(resizeTarget := target, activeHandle := Some(hs[i]), activeHandleIndex := i, handleStartMouse := m), v, i)
  }

  /** The starting geometry a handle resize works from: the anchor opposite handle i and the size of
      a rectangle or an ellipse, the radius and centre of a circle, the vertices of a triangle, the
      endpoints of a line. */
  function ResizeStart(s: FormState, v: ShapeValue, i: int): FormState {
    match v.figure
    case Rectangle(w, h) => s.(anchorPoint := Anchor(v.position, w, h, i), handleStartSize := Vec2(w, h))
    case Ellipse(w, h) => s.(anchorPoint := Anchor(v.position, w, h, i), handleStartSize := Vec2(w, h))
    case Circle(r) => s.(handleStartSize := Vec2(r, r), anchorPoint := v.position)
    case Triangle(a, b, c) =>
      s.(triP1Start := a, triP2Start := b, triP3Start := c, handleStartSize := Origin, anchorPoint := Origin)
    case LineSegment(e) => s.(lineStartStart := v.position, lineEndStart := e)
  }

  /** The rotation MouseMove gives the shape: the mouse's angle about the centre, less the starting
      angle, normalised, turns the starting rotation or the starting points. A circle is unchanged. */
  function RotationStep(v: ShapeValue, s: FormState, m: Point,
                        atan2Deg: (real, real) -> real, rotatePoint: (Vec2, Vec2, real) -> Vec2): ShapeValue
  {
    var c := s.rotateCenter;
    var delta := Normalized(atan2Deg(m.y as real - c.y, m.x as real - c.x) - s.rotateStartAngleDeg);
    match v.figure
    case Rectangle(_, _) => v.(rotation := Normalized(s.shapeStartRotationDeg + delta))
    case Ellipse(_, _) => v.(rotation := Normalized(s.shapeStartRotationDeg + delta))
    case Triangle(_, _, _) =>
      v.(figure := Triangle(rotatePoint(s.triP1Start, c, delta), rotatePoint(s.triP2Start, c, delta),
                            rotatePoint(s.triP3Start, c, delta)))
    case LineSegment(_) =>
      v.(position := rotatePoint(s.lineStartStart, c, delta), figure := LineSegment(rotatePoint(s.lineEndStart, c, delta)))
    case Circle(_) => v
  }

  /** The handle resize MouseMove gives the shape for the mouse at m. */
  function HandleResizeStep(v: ShapeValue, s: FormState, m: Point): ShapeValue {
    var mx, my := m.x as real, m.y as real;
    var d := Vec2(mx - s.handleStartMouse.x as real, my - s.handleStartMouse.y as real);
    match v.figure
    case Rectangle(_, _) =>
      var b := BoxFromAnchor(s.anchorPoint, mx, my);
      v.(position := Vec2(b.x, b.y), figure := Rectangle(b.width, b.height))
    case Ellipse(_, _) =>
      var b := BoxFromAnchor(s.anchorPoint, mx, my);
      v.(position := Vec2(b.x, b.y), figure := Ellipse(b.width, b.height))
    case Circle(_) => v.(figure := Circle(Max(MinRadius, s.handleStartSize.x + d.x)))
    case Triangle(a, b, c) =>
      if s.activeHandleIndex == 0 then v.(figure := Triangle(s.triP1Start.Plus(d), b, c))
      else if s.activeHandleIndex == 1 then v.(figure := Triangle(a, s.triP2Start.Plus(d), c))
      else if s.activeHandleIndex == 2 then v.(figure := Triangle(a, b, s.triP3Start.Plus(d)))
      else v
    case LineSegment(e) =>
      if s.activeHandleIndex == 0 then v.(position := s.lineStartStart.Plus(d))
      else if s.activeHandleIndex == 1 then v.(figure := LineSegment(s.lineEndStart.Plus(d)))
      else v
  }

  // ---------------------------------------------------------------------------------------------
  // Properties of the gesture steps.

  /** A rotation grab starts the rotating gesture whenever a shape is selected. */
  lemma RotationGrabStartsRotating(s: FormState, v: ShapeValue, m: Point, atan2Deg: (real, real) -> real)
    requires s.selected != null
    ensures RotationGrab(s, v, m, atan2Deg).CurrentGesture() == Rotating
    ensures RotationGrab(s, v, m, atan2Deg).selected == s.selected
  {
  }

  /** A resize grab from a settled state starts the resizing gesture on the grabbed handle. */
  lemma ResizeGrabStartsResizing(s: FormState, target: Shape, v: ShapeValue, hs: seq<RectF>, i: int, m: Point)
    requires s.Settled() && 0 <= i < |hs|
    ensures ResizeGrab(s, target, v, hs, i, m).CurrentGesture() == Resizing
    ensures ResizeGrab(s, target, v, hs, i, m).activeHandle == Some(hs[i])
  {
  }

  /** Rotating a rectangle or an ellipse sets only its rotation, always to an angle in (-180, 180] of
      the class of the starting rotation plus the turn of the mouse; a circle does not change; a
      triangle or a line keeps its colours and rotation. */
  lemma RotationStepKeeps(v: ShapeValue, s: FormState, m: Point,
                          atan2Deg: (real, real) -> real, rotatePoint: (Vec2, Vec2, real) -> Vec2)
    ensures var r := RotationStep(v, s, m, atan2Deg, rotatePoint);
            r.fill == v.fill && r.stroke == v.stroke
    ensures var r := RotationStep(v, s, m, atan2Deg, rotatePoint);
            v.figure.Rectangle? || v.figure.Ellipse? ==>
              r.figure == v.figure && r.position == v.position &&
              -180.0 < r.rotation <= 180.0 &&
              SameAngle(r.rotation, s.shapeStartRotationDeg +
                        Normalized(atan2Deg(m.y as real - s.rotateCenter.y, m.x as real - s.rotateCenter.x) - s.rotateStartAngleDeg))
    ensures v.figure.Circle? ==> RotationStep(v, s, m, atan2Deg, rotatePoint) == v
    ensures var r := RotationStep(v, s, m, atan2Deg, rotatePoint);
            (v.figure.Triangle? ==> r.figure.Triangle? && r.rotation == v.rotation && r.position == v.position) &&
            (v.figure.LineSegment? ==> r.figure.LineSegment? && r.rotation == v.rotation)
  {
  }

  /** A rectangle or ellipse handle resize keeps the variant, colours and rotation, is never smaller
      than 10 by 10, and keeps the anchor corner in place. */
  lemma BoxResizeKeepsAnchor(v: ShapeValue, s: FormState, m: Point)
    requires v.figure.Rectangle? || v.figure.Ellipse?
    ensures var r := HandleResizeStep(v, s, m);
            (v.figure.Rectangle? ==> r.figure.Rectangle?) && (v.figure.Ellipse? ==> r.figure.Ellipse?) &&
            r.fill == v.fill && r.stroke == v.stroke && r.rotation == v.rotation
    ensures var r := HandleResizeStep(v, s, m);
            r.figure.width >= MinWidth && r.figure.height >= MinHeight &&
            r.figure.width == Max(MinWidth, Abs(m.x as real - s.anchorPoint.x)) &&
            r.figure.height == Max(MinHeight, Abs(m.y as real - s.anchorPoint.y))
    ensures var r := HandleResizeStep(v, s, m); var a := s.anchorPoint;
            (if m.x as real >= a.x then r.position.x == a.x else r.position.x + r.figure.width == a.x) &&
            (if m.y as real >= a.y then r.position.y == a.y else r.position.y + r.figure.height == a.y)
  {
    BoxFromAnchorKeepsAnchor(s.anchorPoint, m.x as real, m.y as real);
  }

  /** A circle handle resize, whichever handle is held, sets the radius to the starting radius plus
      the horizontal mouse travel, but never below 5; the centre does not move. */
  lemma CircleResizeFromStart(v: ShapeValue, s: FormState, m: Point)
    requires v.figure.Circle?
    ensures var r := HandleResizeStep(v, s, m);
            r.figure.Circle? && r.position == v.position && r.figure.radius >= MinRadius
    ensures var r := HandleResizeStep(v, s, m); var grown := s.handleStartSize.x + (m.x - s.handleStartMouse.x) as real;
            (grown >= MinRadius ==> r.figure.radius == grown) && (grown < MinRadius ==> r.figure.radius == MinRadius)
    ensures forall i :: HandleResizeStep(v, s.(activeHandleIndex := i), m) == HandleResizeStep(v, s, m)
  {
  }

  /** A triangle or line handle resize moves only the grabbed vertex or endpoint, to its starting
      point plus the mouse travel since the grab; everything else is unchanged. */
  lemma PointResizeMovesGrabbedOnly(v: ShapeValue, s: FormState, m: Point)
    requires v.figure.Triangle? || v.figure.LineSegment?
    ensures var r := HandleResizeStep(v, s, m); var d := Offset(s.handleStartMouse, m);
            r.fill == v.fill && r.stroke == v.stroke && r.rotation == v.rotation &&
            (v.figure.Triangle? ==>
               r.figure.Triangle? &&
               r.position == v.position &&
               r.figure.p1 == (if s.activeHandleIndex == 0 then s.triP1Start.Plus(d) else v.figure.p1) &&
               r.figure.p2 == (if s.activeHandleIndex == 1 then s.triP2Start.Plus(d) else v.figure.p2) &&
               r.figure.p3 == (if s.activeHandleIndex == 2 then s.triP3Start.Plus(d) else v.figure.p3)) &&
            (v.figure.LineSegment? ==>
               r.figure.LineSegment? &&
               r.position == (if s.activeHandleIndex == 0 then s.lineStartStart.Plus(d) else v.position) &&
               r.figure.end == (if s.activeHandleIndex == 1 then s.lineEndStart.Plus(d) else v.figure.end))
  {
  }

  /** A paste places the copy's geometry where moving the copied shape by (20, 20) would put it. */
  lemma PasteOffsetsCopy(v: ShapeValue)
    requires !v.figure.Rectangle?
    ensures v.Cloned().Moved(Vec2(20.0, 20.0)).figure == v.Moved(Vec2(20.0, 20.0)).figure
    ensures !v.figure.Triangle? ==> v.Cloned().Moved(Vec2(20.0, 20.0)).position == v.position.Plus(Vec2(20.0, 20.0))
    ensures v.Cloned().Moved(Vec2(20.0, 20.0)).stroke == v.stroke
  {
  }

  // ---------------------------------------------------------------------------------------------
  // The form.

  class MainForm {
    const scene: Scene
    const history: CommandHistory

    var selected: Shape?
    var isDragging: bool
    var lastMousePos: Point
    var copiedShape: Shape?

    var resizeTarget: Shape?
    var activeHandle: Option<RectF>
    var activeHandleIndex: int
    var handleStartMouse: Point
    var handleStartSize: Vec2
    var anchorPoint: Vec2

    var isRotating: bool
    var rotateCenter: Vec2
    var rotateStartAngleDeg: real
    var shapeStartRotationDeg: real
    var triP1Start: Vec2
    var triP2Start: Vec2
    var triP3Start: Vec2
    var lineStartStart: Vec2
    var lineEndStart: Vec2

    function State(): FormState
      reads this
    {
      FormState(selected, isDragging, lastMousePos, copiedShape, resizeTarget, activeHandle, activeHandleIndex,
                handleStartMouse, handleStartSize, anchorPoint, isRotating, rotateCenter, rotateStartAngleDeg,
                shapeStartRotationDeg, triP1Start, triP2Start, triP3Start, lineStartStart, lineEndStart)
    }

    /** The one shape MouseMove may change: the selected shape while rotating or dragging, the resize
        target while resizing, none while hovering. */
    function MoveFrame(): set<object?>
      reads this
    {
      match State().CurrentGesture()
      case Rotating => {selected}
      case Dragging => {selected}
      case Resizing => {resizeTarget}
      case Idle => {}
    }

    /** An empty scene and history, nothing selected, no gesture. */
    constructor ()
      ensures scene.shapes == [] && history.undoStack == [] && history.redoStack == []
      ensures selected == null && copiedShape == null && State().Settled()
      ensures fresh(scene) && fresh(history)
    {
      scene := new Scene();
      history := new CommandHistory();
      selected, isDragging, lastMousePos, copiedShape := null, false, Point(0, 0), null;
      resizeTarget, activeHandle, activeHandleIndex := null, None, -1;
      handleStartMouse, handleStartSize, anchorPoint := Point(0, 0), Origin, Origin;
      isRotating, rotateCenter, rotateStartAngleDeg, shapeStartRotationDeg := false, Origin, 0.0, 0.0;
      triP1Start, triP2Start, triP3Start, lineStartStart, lineEndStart := Origin, Origin, Origin, Origin, Origin;
    }

    /** The index of the first handle of the selected shape containing m, or -1 (also when nothing is
        selected). */
    method GetHandleIndexAt(m: Point) returns (r: int)
      ensures selected == null ==> r == -1
      ensures selected != null ==> IsFirstHandleAt(GetResizeHandles(selected.Value()), m, r)
    {
      if selected == null {
        return -1;
      }
      r := FindHandle(GetResizeHandles(selected.Value()), m);
    }

    /** The rotation handle of the selected shape wins; then its first resize handle containing the
        mouse; otherwise the topmost shape under the mouse becomes the selection (possibly none), and
        a left-button hit starts a drag from the mouse position. */
    method MouseDown(e: MouseEvent, atan2Deg: (real, real) -> real)
      modifies this
      ensures old(selected) != null && IsOnRotationHandle(old(selected.Value()), e.Location()) ==>
                State() == RotationGrab(old(State()), old(selected.Value()), e.Location(), atan2Deg)
      ensures old(selected) != null && !IsOnRotationHandle(old(selected.Value()), e.Location()) &&
              !IsFirstHandleAt(GetResizeHandles(old(selected.Value())), e.Location(), -1) ==>
                IsFirstHandleAt(GetResizeHandles(old(selected.Value())), e.Location(), activeHandleIndex) &&
                0 <= activeHandleIndex < |GetResizeHandles(old(selected.Value()))| &&
                State() == ResizeGrab(old(State()), old(selected), old(selected.Value()),
                                      GetResizeHandles(old(selected.Value())), activeHandleIndex, e.Location())
      ensures old(selected) == null ||
              (!IsOnRotationHandle(old(selected.Value()), e.Location()) &&
               IsFirstHandleAt(GetResizeHandles(old(selected.Value())), e.Location(), -1)) ==>
                scene.IsTopmostAt(ToVec(e.Location()), selected) &&
                if selected != null && e.button == Left then
                  State() == old(State()).(selected := selected, isDragging := true, lastMousePos := e.Location())
                else
                  State() == old(State()).(selected := selected)
    {
      var m := e.Location();
      if selected != null && IsOnRotationHandle(selected.Value(), m) {
        BeginRotation(m, atan2Deg);
        return;
      }

      if selected != null {
        var handles := GetResizeHandles(selected.Value());
        var i := FindHandle(handles, m);
        if i >= 0 {
          BeginResize(handles, i, m);
          return;
        }
      }

      selected := scene.FindShapeAt(ToVec(m));
      if selected != null && e.button == Left {
        isDragging := true;
        lastMousePos := m;
      }
    }

    /** The rotation branch of MouseDown. */
    method BeginRotation(m: Point, atan2Deg: (real, real) -> real)
      requires selected != null
      modifies this
      ensures State() == RotationGrab(old(State()), old(selected.Value()), m, atan2Deg)
    {
      var v := selected.Value();
      isRotating := true;
      rotateCenter := GetCenter(v);
      rotateStartAngleDeg := atan2Deg(m.y as real - rotateCenter.y, m.x as real - rotateCenter.x);
      RememberRotationStart(v);
    }

    method RememberRotationStart(v: ShapeValue)
      modifies this
      ensures State() == RotationStart(old(State()), v)
    {
      match v.figure {
        case Rectangle(_, _) =>
          shapeStartRotationDeg := v.rotation;
        case Ellipse(_, _) =>
          shapeStartRotationDeg := v.rotation;
        case Triangle(a, b, c) =>
          triP1Start, triP2Start, triP3Start := a, b, c;
        case LineSegment(end) =>
          lineStartStart, lineEndStart := v.position, end;
        case Circle(_) =>
      }
    }

    /** The resize branch of MouseDown, for handle i of the selected shape. */
    method BeginResize(handles: seq<RectF>, i: int, m: Point)
      requires selected != null && 0 <= i < |handles|
      modifies this
      ensures State() == ResizeGrab(old(State()), old(selected), old(selected.Value()), handles, i, m)
    {
      var v := selected.Value();
      resizeTarget := selected;
      activeHandle := Some(handles[i]);
      activeHandleIndex := i;
      handleStartMouse := m;
      RememberResizeStart(v, i);
    }

    method RememberResizeStart(v: ShapeValue, i: int)
      modifies this
      ensures State() == ResizeStart(old(State()), v, i)
    {
      match v.figure {
        case Rectangle(w, h) =>
          anchorPoint, handleStartSize := Anchor(v.position, w, h, i), Vec2(w, h);
        case Ellipse(w, h) =>
          anchorPoint, handleStartSize := Anchor(v.position, w, h, i), Vec2(w, h);
        case Circle(r) =>
          handleStartSize, anchorPoint := Vec2(r, r), v.position;
        case Triangle(a, b, c) =>
          triP1Start, triP2Start, triP3Start, handleStartSize, anchorPoint := a, b, c, Vec2(0.0, 0.0), Vec2(0.0, 0.0);
        case LineSegment(end) =>
          lineStartStart, lineEndStart := v.position, end;
      }
    }

    /** The rotation branch of MouseMove. */
    method RotateSelected(m: Point, atan2Deg: (real, real) -> real, rotatePoint: (Vec2, Vec2, real) -> Vec2)
      requires selected != null
      modifies selected
      ensures selected.Value() == RotationStep(old(selected.Value()), State(), m, atan2Deg, rotatePoint)
    {
      var cur := atan2Deg(m.y as real - rotateCenter.y, m.x as real - rotateCenter.x);
      var delta := NormalizeDeg(cur - rotateStartAngleDeg);
      match selected.figure {
        case Rectangle(_, _) =>
          selected.rotation := NormalizeDeg(shapeStartRotationDeg + delta);
        case Ellipse(_, _) =>
          selected.rotation := NormalizeDeg(shapeStartRotationDeg + delta);
        case Triangle(_, _, _) =>
          selected.figure := Triangle(rotatePoint(triP1Start, rotateCenter, delta),
                                      rotatePoint(triP2Start, rotateCenter, delta),
                                      rotatePoint(triP3Start, rotateCenter, delta));
        case LineSegment(_) =>
          selected.position := rotatePoint(lineStartStart, rotateCenter, delta);
          selected.figure := LineSegment(rotatePoint(lineEndStart, rotateCenter, delta));
        case Circle(_) =>
      }
    }

    /** The resize branch of MouseMove. */
    method ResizeTarget(m: Point)
      requires resizeTarget != null
      modifies resizeTarget
      ensures resizeTarget.Value() == HandleResizeStep(old(resizeTarget.Value()), State(), m)
    {
      var mx, my := m.x as real, m.y as real;
      match resizeTarget.figure {
        case Rectangle(_, _) =>
          var w := Max(MinWidth, Abs(mx - anchorPoint.x));
          var h := Max(MinHeight, Abs(my - anchorPoint.y));
          var newX := if mx >= anchorPoint.x then anchorPoint.x else anchorPoint.x - w;
          var newY := if my >= anchorPoint.y then anchorPoint.y else anchorPoint.y - h;
          resizeTarget.position := Vec2(newX, newY);
          resizeTarget.figure := Rectangle(w, h);
        case Ellipse(_, _) =>
          var w := Max(MinWidth, Abs(mx - anchorPoint.x));
          var h := Max(MinHeight, Abs(my - anchorPoint.y));
          var newX := if mx >= anchorPoint.x then anchorPoint.x else anchorPoint.x - w;
          var newY := if my >= anchorPoint.y then anchorPoint.y else anchorPoint.y - h;
          resizeTarget.position := Vec2(newX, newY);
          resizeTarget.figure := Ellipse(w, h);
        case Circle(_) =>
          var dx := mx - handleStartMouse.x as real;
          resizeTarget.figure := Circle(Max(MinRadius, handleStartSize.x + dx));
        case Triangle(_, _, _) =>
          var dx := mx - handleStartMouse.x as real;
          var dy := my - handleStartMouse.y as real;
          if activeHandleIndex == 0 {
            resizeTarget.figure := resizeTarget.figure.(p1 := Vec2(triP1Start.x + dx, triP1Start.y + dy));
          } else if activeHandleIndex == 1 {
            resizeTarget.figure := resizeTarget.figure.(p2 := Vec2(triP2Start.x + dx, triP2Start.y + dy));
          } else if activeHandleIndex == 2 {
            resizeTarget.figure := resizeTarget.figure.(p3 := Vec2(triP3Start.x + dx, triP3Start.y + dy));
          }
        case LineSegment(_) =>
          var dx := mx - handleStartMouse.x as real;
          var dy := my - handleStartMouse.y as real;
          if activeHandleIndex == 0 {
            resizeTarget.position := Vec2(lineStartStart.x + dx, lineStartStart.y + dy);
          } else if activeHandleIndex == 1 {
            resizeTarget.figure := LineSegment(Vec2(lineEndStart.x + dx, lineEndStart.y + dy));
          }
      }
    }

    /** Rotating: turn the selected shape from its snapshot. Resizing: resize the target from its
        snapshot. Dragging: move the selected shape by the mouse travel since the last event and
        remember the mouse. Hovering changes only the cursor. */
    method MouseMove(e: MouseEvent, atan2Deg: (real, real) -> real, rotatePoint: (Vec2, Vec2, real) -> Vec2)
      modifies this, MoveFrame()
      ensures old(State()).CurrentGesture() == Rotating ==>
                State() == old(State()) &&
                selected.Value() == RotationStep(old(selected.Value()), old(State()), e.Location(), atan2Deg, rotatePoint)
      ensures old(State()).CurrentGesture() == Resizing ==>
                State() == old(State()) &&
                resizeTarget.Value() == HandleResizeStep(old(resizeTarget.Value()), old(State()), e.Location())
      ensures old(State()).CurrentGesture() == Dragging ==>
                State() == old(State()).(lastMousePos := e.Location()) &&
                selected.Value() == old(selected.Value()).Moved(Offset(old(lastMousePos), e.Location()))
      ensures old(State()).CurrentGesture() == Idle ==> State() == old(State())
    {
      var m := e.Location();
      if isRotating && selected != null {
        RotateSelected(m, atan2Deg, rotatePoint);
        return;
      }

      if resizeTarget != null && activeHandle.Some? && activeHandleIndex >= 0 {
        ResizeTarget(m);
        return;
      }

      if isDragging && selected != null {
        var dx := m.x - lastMousePos.x;
        var dy := m.y - lastMousePos.y;
        selected.Move(Vec2(dx as real, dy as real));
        lastMousePos := m;
        return;
      }
    }

    /** Ending a drag records a move command for the travel since the last MouseMove, when there is
        any; every gesture ends. */
    method MouseUp(e: MouseEvent)
      modifies this, history, if isDragging && selected != null then {selected} else {}
      ensures State() == old(State()).(resizeTarget := null, activeHandle := None, activeHandleIndex := -1,
                                       isDragging := false, isRotating := false)
      ensures State().Settled() && State().CurrentGesture() == Idle
      ensures old(isDragging) && old(selected) != null && old(lastMousePos) != e.Location() ==>
                selected.Value() == old(selected.Value()).Moved(Offset(old(lastMousePos), e.Location())) &&
                history.undoStack == old(history.undoStack) + [MoveShape(selected, Offset(old(lastMousePos), e.Location()))] &&
                history.redoStack == []
      ensures !(old(isDragging) && old(selected) != null && old(lastMousePos) != e.Location()) ==>
                history.undoStack == old(history.undoStack) && history.redoStack == old(history.redoStack) &&
                (old(selected) != null ==> selected.Value() == old(selected.Value()))
    {
      if isDragging && selected != null {
        var dx := e.x - lastMousePos.x;
        var dy := e.y - lastMousePos.y;
        if dx != 0 || dy != 0 {
          history.Execute(MoveShape(selected, Vec2(dx as real, dy as real)));
        }
      }
      resizeTarget := null;
      activeHandle := None;
      activeHandleIndex := -1;
      isDragging := false;
      isRotating := false;
    }

    /** With a selection: record a delete command for it, which removes it from the scene, and clear
        the selection. Without one: nothing. */
    method DeleteSelected()
      modifies this, history, scene
      ensures old(selected) == null ==>
                State() == old(State()) && unchanged(history, scene)
      ensures old(selected) != null ==>
                scene.shapes == RemoveFirst<Shape>(old(scene.shapes), old(selected)) &&
                history.undoStack == old(history.undoStack) + [DeleteShape(scene, old(selected))] &&
                history.redoStack == [] &&
                State() == old(State()).(selected := null)
    {
      if selected != null {
        history.Execute(DeleteShape(scene, selected));
        selected := null;
      }
    }

    /** Keeps a fresh clone of the selection as the copied shape. */
    method CopySelected()
      modifies this
      ensures old(selected) == null ==> State() == old(State())
      ensures old(selected) != null ==>
                copiedShape != null && fresh(copiedShape) && copiedShape.Value() == old(selected.Value()).Cloned() &&
                State() == old(State()).(copiedShape := copiedShape)
    {
      if selected != null {
        copiedShape := selected.Clone();
      }
    }

    /** With a copied shape: a fresh clone of it, moved by (20, 20), is created on top of the scene
        through the history; the copied shape itself is untouched, so pasting again makes another
        clone at the same place. */
    method PasteShape()
      modifies history, scene
      ensures old(copiedShape) == null ==> unchanged(history, scene)
      ensures old(copiedShape) != null ==>
                |scene.shapes| == |old(scene.shapes)| + 1 &&
                var c := scene.shapes[|scene.shapes| - 1];
                fresh(c) &&
                scene.shapes == old(scene.shapes) + [c] &&
                c.Value() == old(copiedShape.Value()).Cloned().Moved(Vec2(20.0, 20.0)) &&
                history.undoStack == old(history.undoStack) + [CreateShape(scene, c)] &&
                history.redoStack == []
      ensures copiedShape != null ==> copiedShape.Value() == old(copiedShape.Value())
    {
      if copiedShape != null {
        var clone := copiedShape.Clone();
        clone.Move(Vec2(20.0, 20.0));
        history.Execute(CreateShape(scene, clone));
      }
    }
  }

  /** A drag whose last MouseMove is at the release point: the shape has moved by the whole drag, and
      the history records nothing, so the drag cannot be undone. */
  method DragReleasedInPlace(f: MainForm, e: MouseEvent, atan2Deg: (real, real) -> real,
                             rotatePoint: (Vec2, Vec2, real) -> Vec2)
    requires f.State().CurrentGesture() == Dragging
    modifies f, f.history, f.selected
    ensures f.selected == old(f.selected) && f.State().Settled()
    ensures f.selected.Value() == old(f.selected.Value()).Moved(Offset(old(f.lastMousePos), e.Location()))
    ensures f.history.undoStack == old(f.history.undoStack) && f.history.redoStack == old(f.history.redoStack)
  {
    f.MouseMove(e, atan2Deg, rotatePoint);
    f.MouseUp(e);
  }
}
