/** The geometry helpers of the main window (UI/MainForm.cs): handle boxes, bounds, centre, the
    rotation handle, the anchor and size arithmetic of a handle drag, and angle normalisation. */
module Geometry {
  import opened Vectors
  import opened Shapes
  import opened Scenes

  /** A mouse position in whole pixels. */
  datatype Point = Point(x: int, y: int)

  function ToVec(p: Point): Vec2 {
    Vec2(p.x as real, p.y as real)
  }

  /** An axis-aligned box; Contains is half-open on the right and bottom edges. */
  datatype RectF = RectF(x: real, y: real, width: real, height: real) {
    predicate Contains(p: Point) {
      x <= p.x as real < x + width && y <= p.y as real < y + height
    }
  }

  const HandleSize: int := 8
  const RotationHandleRadius: real := 7.0
  const RotationHandleOffset: real := 22.0
  const MinWidth: real := 10.0
  const MinHeight: real := 10.0
  const MinRadius: real := 5.0

  /** The handle box drawn around a handle point (HandleSize / 2 is integer division). */
  function HandleBox(c: Vec2): RectF {
    RectF(c.x - (HandleSize / 2) as real, c.y - (HandleSize / 2) as real, HandleSize as real, HandleSize as real)
  }

  /** The handle points of a shape, in handle-index order: the corners TL, TR, BL, BR of a rectangle or
      an ellipse; right, left, bottom, top of a circle; the vertices of a triangle; start and end of a
      line. */
  function HandlePoints(v: ShapeValue): seq<Vec2> {
    var x, y := v.position.x, v.position.y;
    match v.figure
    case Rectangle(w, h) => [Vec2(x, y), Vec2(x + w, y), Vec2(x, y + h), Vec2(x + w, y + h)]
    case Ellipse(w, h) => [Vec2(x, y), Vec2(x + w, y), Vec2(x, y + h), Vec2(x + w, y + h)]
    case Circle(r) => [Vec2(x + r, y), Vec2(x - r, y), Vec2(x, y + r), Vec2(x, y - r)]
    case Triangle(a, b, c) => [a, b, c]
    case LineSegment(e) => [v.position, e]
  }

  function GetResizeHandles(v: ShapeValue): (hs: seq<RectF>)
    ensures |hs| == |HandlePoints(v)|
  {
    var ps := HandlePoints(v);
    seq(|ps|, i requires 0 <= i < |ps| => HandleBox(ps[i]))
  }

  /** Every handle box is centred on its handle point and contains the pixel at that point. */
  lemma HandlesContainTheirPoints(v: ShapeValue, i: nat, m: Point)
    requires i < |HandlePoints(v)| && ToVec(m) == HandlePoints(v)[i]
    ensures GetResizeHandles(v)[i].Contains(m)
    ensures GetResizeHandles(v)[i].x + GetResizeHandles(v)[i].width / 2.0 == HandlePoints(v)[i].x
    ensures GetResizeHandles(v)[i].y + GetResizeHandles(v)[i].height / 2.0 == HandlePoints(v)[i].y
  {
  }

  /** Four handles for rectangles, ellipses and circles, three for a triangle, two for a line. */
  lemma HandleCounts(v: ShapeValue)
    ensures |GetResizeHandles(v)| == match v.figure
      case Triangle(_, _, _) => 3
      case LineSegment(_) => 2
      case _ => 4
  {
  }

  /** The bounding box of a shape: the box itself for rectangles and ellipses, the square around a
      circle, the min/max box of a triangle's vertices or of a line's endpoints. */
  function GetBounds(v: ShapeValue): RectF {
    match v.figure
    case Rectangle(w, h) => RectF(v.position.x, v.position.y, w, h)
    case Ellipse(w, h) => RectF(v.position.x, v.position.y, w, h)
    case Circle(r) => RectF(v.position.x - r, v.position.y - r, r * 2.0, r * 2.0)
    case Triangle(a, b, c) =>
      var minX := Min(a.x, Min(b.x, c.x));
      var minY := Min(a.y, Min(b.y, c.y));
      var maxX := Max(a.x, Max(b.x, c.x));
      var maxY := Max(a.y, Max(b.y, c.y));
      RectF(minX, minY, maxX - minX, maxY - minY)
    case LineSegment(e) =>
      var minX := Min(v.position.x, e.x);
      var minY := Min(v.position.y, e.y);
      var maxX := Max(v.position.x, e.x);
      var maxY := Max(v.position.y, e.y);
      RectF(minX, minY, maxX - minX, maxY - minY)
  }

  /** p lies in the closed box b. */
  predicate InClosedBox(p: Vec2, b: RectF) {
    b.x <= p.x <= b.x + b.width && b.y <= p.y <= b.y + b.height
  }

  /** The bounds of a triangle or a line are the smallest box holding its points: every vertex or
      endpoint lies in it, and each edge of the box touches one of them. */
  lemma BoundsHoldPoints(v: ShapeValue)
    requires v.figure.Triangle? || v.figure.LineSegment?
    ensures var b := GetBounds(v);
            b.width >= 0.0 && b.height >= 0.0 &&
            forall p :: p in HandlePoints(v) ==> InClosedBox(p, b)
    ensures var b := GetBounds(v);
            (exists p :: p in HandlePoints(v) && p.x == b.x) && (exists p :: p in HandlePoints(v) && p.x == b.x + b.width) &&
            (exists p :: p in HandlePoints(v) && p.y == b.y) && (exists p :: p in HandlePoints(v) && p.y == b.y + b.height)
  {
  }

  /** The centre of the bounding box. */
  function GetCenter(v: ShapeValue): Vec2 {
    var b := GetBounds(v);
    Vec2(b.x + b.width / 2.0, b.y + b.height / 2.0)
  }

  /** A circle's centre is its position, a line's is its midpoint, and a rectangle's or an ellipse's is
      the middle of its box. */
  lemma CenterOfShapes(v: ShapeValue)
    ensures v.figure.Circle? ==> GetCenter(v) == v.position
    ensures v.figure.LineSegment? ==>
              GetCenter(v) == Vec2((v.position.x + v.figure.end.x) / 2.0, (v.position.y + v.figure.end.y) / 2.0)
    ensures v.figure.Rectangle? || v.figure.Ellipse? ==>
              GetCenter(v) == Vec2(v.position.x + v.figure.width / 2.0, v.position.y + v.figure.height / 2.0)
  {
  }

  /** The rotation handle sits RotationHandleOffset pixels above the middle of the bounds' top edge. */
  function GetRotationHandleCenter(v: ShapeValue): Vec2 {
    var b := GetBounds(v);
    Vec2(b.x + b.width / 2.0, b.y - RotationHandleOffset)
  }

  /** The mouse is on the rotation handle when it is within RotationHandleRadius of its centre. */
  predicate IsOnRotationHandle(v: ShapeValue, m: Point) {
    WithinTolerance(ToVec(m), GetRotationHandleCenter(v), RotationHandleRadius)
  }

  /** The rotation handle is hit at its centre and missed by every point farther than the radius
      (any non-negative root of the squared distance). */
  lemma RotationHandleHits(v: ShapeValue, m: Point, dist: real)
    requires dist >= 0.0 && Mul(dist, dist) == DistSq(ToVec(m), GetRotationHandleCenter(v))
    ensures IsOnRotationHandle(v, m) <==> dist <= RotationHandleRadius
    ensures ToVec(m) == GetRotationHandleCenter(v) ==> IsOnRotationHandle(v, m)
  {
    DistanceAgainstTolerance(ToVec(m), GetRotationHandleCenter(v), RotationHandleRadius, dist);
    if ToVec(m) == GetRotationHandleCenter(v) {
      SquareSign(0.0);
      SquareSign(RotationHandleRadius);
    }
  }

  /** r is the index of the first box that contains m, or -1 when none does. */
  predicate IsFirstHandleAt(hs: seq<RectF>, m: Point, r: int) {
    (r == -1 && forall j :: 0 <= j < |hs| ==> !hs[j].Contains(m)) ||
    (0 <= r < |hs| && hs[r].Contains(m) && forall j :: 0 <= j < r ==> !hs[j].Contains(m))
  }

  /** The handle search of GetHandleIndexAt and MouseDown: the boxes in order, the first hit wins. */
  method FindHandle(hs: seq<RectF>, m: Point) returns (r: int)
    ensures IsFirstHandleAt(hs, m, r)
  {
    var i := 0;
    while i < |hs|
      invariant 0 <= i <= |hs|
      invariant forall j :: 0 <= j < i ==> !hs[j].Contains(m)
    {
      if hs[i].Contains(m) {
        return i;
      }
      i := i + 1;
    }
    return -1;
  }

  /** Only one index answers the handle search. */
  lemma FirstHandleUnique(hs: seq<RectF>, m: Point, r1: int, r2: int)
    requires IsFirstHandleAt(hs, m, r1) && IsFirstHandleAt(hs, m, r2)
    ensures r1 == r2
  {
  }

  /** The anchor of a handle drag on a box: the corner diagonally opposite the grabbed handle
      (0 = TL gives BR, 1 = TR gives BL, 2 = BL gives TR, any other gives TL). */
  function Anchor(pos: Vec2, w: real, h: real, i: int): Vec2 {
    if i == 0 then Vec2(pos.x + w, pos.y + h)
    else if i == 1 then Vec2(pos.x, pos.y + h)
    else if i == 2 then Vec2(pos.x + w, pos.y)
    else Vec2(pos.x, pos.y)
  }

  /** For a rectangle or an ellipse, the anchor of handle i is the handle point 3 - i. */
  lemma AnchorIsOppositeCorner(v: ShapeValue, i: nat)
    requires v.figure.Rectangle? || v.figure.Ellipse?
    requires i < 4
    ensures Anchor(v.position, v.figure.width, v.figure.height, i) == HandlePoints(v)[3 - i]
  {
  }

  /** The box spanned by the anchor and the mouse, each side at least its minimum, placed so that the
      anchor stays a corner. */
  function BoxFromAnchor(anchor: Vec2, mx: real, my: real): RectF {
    var w := Max(MinWidth, Abs(mx - anchor.x));
    var h := Max(MinHeight, Abs(my - anchor.y));
    var newX := if mx >= anchor.x then anchor.x else anchor.x - w;
    var newY := if my >= anchor.y then anchor.y else anchor.y - h;
    RectF(newX, newY, w, h)
  }

  /** The resized box is never smaller than the minimum, keeps the anchor as the corner on the side
      away from the mouse, and, once the drag spans at least the minimum, puts the opposite corner
      under the mouse. */
  lemma BoxFromAnchorKeepsAnchor(anchor: Vec2, mx: real, my: real)
    ensures var b := BoxFromAnchor(anchor, mx, my);
            b.width >= MinWidth && b.height >= MinHeight
    ensures var b := BoxFromAnchor(anchor, mx, my);
            (if mx >= anchor.x then b.x == anchor.x else b.x + b.width == anchor.x) &&
            (if my >= anchor.y then b.y == anchor.y else b.y + b.height == anchor.y)
    ensures var b := BoxFromAnchor(anchor, mx, my);
            (Abs(mx - anchor.x) >= MinWidth ==> (mx == b.x || mx == b.x + b.width)) &&
            (Abs(my - anchor.y) >= MinHeight ==> (my == b.y || my == b.y + b.height))
  {
  }

  // ---------------------------------------------------------------------------------------------
  // Angles in degrees.

  /** r and a differ by a whole number of turns. */
  predicate SameAngle(r: real, a: real) {
    var q := (r - a) / 360.0;
    q.Floor as real == q
  }

  /** The representative of a in (-180, 180]. */
  function Normalized(a: real): (r: real)
    ensures -180.0 < r <= 180.0
    ensures SameAngle(r, a)
  {
    var k := ((180.0 - a) / 360.0).Floor;
    assert (a + 360.0 * k as real - a) / 360.0 == k as real;
    a + 360.0 * k as real
  }

  /** Two angles of the same class in (-180, 180] are equal. */
  lemma {:induction false} SameAngleInRangeUnique(r1: real, r2: real, a: real)
    requires -180.0 < r1 <= 180.0 && -180.0 < r2 <= 180.0
    requires SameAngle(r1, a) && SameAngle(r2, a)
    ensures r1 == r2
  {
    var k1, k2 := ((r1 - a) / 360.0).Floor, ((r2 - a) / 360.0).Floor;
    assert r1 == a + 360.0 * k1 as real;
    assert r2 == a + 360.0 * k2 as real;
    assert -1 < k1 - k2 < 1;
  }

  /** Normalized is the only value in (-180, 180] of the angle's class, so it leaves angles already
      in range unchanged. */
  lemma NormalizedCharacterised(a: real, r: real)
    requires -180.0 < r <= 180.0 && SameAngle(r, a)
    ensures r == Normalized(a)
  {
    SameAngleInRangeUnique(r, Normalized(a), a);
  }

  lemma NormalizedIdentityInRange(a: real)
    requires -180.0 < a <= 180.0
    ensures Normalized(a) == a
  {
    assert SameAngle(a, a);
    NormalizedCharacterised(a, a);
  }

  /** NormalizeDeg: add whole turns while the angle is at most -180, then subtract them while it is
      above 180. */
  method NormalizeDeg(a: real) returns (r: real)
    ensures r == Normalized(a)
  {
    r := a;
    ghost var k: int := 0;
    while r <= -180.0
      invariant r == a + 360.0 * k as real
      decreases (-r).Floor
    {
      r := r + 360.0;
      k := k + 1;
    }
    while r > 180.0
      invariant r > -180.0
      invariant r == a + 360.0 * k as real
      decreases r.Floor
    {
      r := r - 360.0;
      k := k - 1;
    }
    assert (r - a) / 360.0 == k as real;
    NormalizedCharacterised(a, r);
  }
}
