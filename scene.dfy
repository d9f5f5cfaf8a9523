/** The scene (Models/Scene.cs): an ordered list of shapes whose order is the z-order (last is topmost),
    and the per-shape hit tests. */
module Scenes {
  import opened Vectors
  import opened Shapes

  /** Pixel tolerances of the hit tests. */
  const EdgeTolerance: real := 6.0
  const LineTolerance: real := 8.0

  // ---------------------------------------------------------------------------------------------
  // List removal (List<T>.Remove): the first occurrence, by reference for shapes.

  /** The index of the first occurrence of x. */
  function IndexOf<T(==)>(xs: seq<T>, x: T): (i: nat)
    requires x in xs
    ensures i < |xs| && xs[i] == x && x !in xs[..i]
  {
    if xs[0] == x then 0 else 1 + IndexOf(xs[1..], x)
  }

  /** xs without its first occurrence of x; xs itself when x does not occur. */
  function RemoveFirst<T(==)>(xs: seq<T>, x: T): (r: seq<T>)
    ensures x !in xs ==> r == xs
  {
    if xs == [] then []
    else if xs[0] == x then xs[1..]
    else [xs[0]] + RemoveFirst(xs[1..], x)
  }

  /** RemoveFirst takes away one occurrence of x, when there is one, and nothing else. */
  lemma {:induction false} RemoveFirstCounts<T>(xs: seq<T>, x: T)
    ensures multiset(RemoveFirst(xs, x)) == multiset(xs) - multiset{x}
  {
    if xs != [] {
      assert xs == [xs[0]] + xs[1..];
      if xs[0] != x {
        RemoveFirstCounts(xs[1..], x);
      }
    }
  }

  /** RemoveFirst cuts out exactly the element at the first occurrence and keeps the order of the rest. */
  lemma {:induction false} RemoveFirstCutsFirstOccurrence<T>(xs: seq<T>, x: T)
    requires x in xs
    ensures RemoveFirst(xs, x) == xs[..IndexOf(xs, x)] + xs[IndexOf(xs, x) + 1..]
  {
    if xs[0] == x {
      assert xs[..0] == [];
    } else {
      RemoveFirstCutsFirstOccurrence(xs[1..], x);
      var i := IndexOf(xs[1..], x);
      assert IndexOf(xs, x) == i + 1;
      assert xs[..i + 1] == [xs[0]] + xs[1..][..i];
      assert xs[i + 2..] == xs[1..][i + 1..];
    }
  }

  /** Appending a shape that was not in the list and then removing it gives the list back
      (create, then undo the create). */
  lemma {:induction false} RemoveAppended<T>(xs: seq<T>, x: T)
    requires x !in xs
    ensures RemoveFirst(xs + [x], x) == xs
  {
    if xs == [] {
      assert xs + [x] == [x];
    } else {
      assert x != xs[0] && xs[1..] + [x] == (xs + [x])[1..] && x !in xs[1..];
      RemoveAppended(xs[1..], x);
    }
  }

  /** When x occurs at most once in xs, removing it and appending it again gives xs back exactly
      when x was the last element (delete, then undo the delete, restores the z-order only for the
      topmost shape). */
  lemma ReappendRestoresWhenUnique<T>(xs: seq<T>, x: T)
    requires multiset(xs)[x] <= 1
    ensures RemoveFirst(xs, x) + [x] == xs <==> (|xs| > 0 && xs[|xs| - 1] == x)
  {
    if |xs| > 0 && xs[|xs| - 1] == x {
      ReappendLastRestores(xs, x);
    }
  }

  lemma ReappendLastRestores<T>(xs: seq<T>, x: T)
    requires multiset(xs)[x] <= 1
    requires |xs| > 0 && xs[|xs| - 1] == x
    ensures RemoveFirst(xs, x) + [x] == xs
  {
    OccursOnce(xs, x, IndexOf(xs, x), |xs| - 1);
    ReappendFirstAtEnd(xs, x);
  }

  lemma {:induction false} ReappendFirstAtEnd<T>(xs: seq<T>, x: T)
    requires x in xs && IndexOf(xs, x) == |xs| - 1
    ensures RemoveFirst(xs, x) + [x] == xs
  {
    var n := |xs| - 1;
    assert RemoveFirst(xs, x) == xs[..n] by {
      RemoveFirstCutsFirstOccurrence(xs, x);
      assert xs[n + 1..] == [];
    }
    assert xs[..n] + [xs[n]] == xs;
  }

  /** Two positions holding an element that occurs at most once are the same position. */
  lemma OccursOnce<T>(xs: seq<T>, x: T, i: nat, j: nat)
    requires multiset(xs)[x] <= 1
    requires i <= j < |xs| && xs[i] == x && xs[j] == x
    ensures i == j
  {
    if i < j {
      TwoPositionsCountTwice(xs, x, i, j);
    }
  }

  lemma TwoPositionsCountTwice<T>(xs: seq<T>, x: T, i: nat, j: nat)
    requires i < j < |xs| && xs[i] == x && xs[j] == x
    ensures multiset(xs)[x] >= 2
  {
    var left, mid, right := xs[..i], xs[i + 1..j], xs[j + 1..];
    assert xs == left + [x] + mid + [x] + right;
  }

  /** Removing a shape that is not in the list and appending it adds it on top (undoing a delete
      whose execution found nothing). */
  lemma AbsentReappendAdds<T>(xs: seq<T>, x: T)
    requires x !in xs
    ensures RemoveFirst(xs, x) + [x] == xs + [x]
  {
  }

  /** When x occurs at most once in xs, removing it, appending it and removing it again leaves the
      list the first removal left (delete, undo, redo of a delete ends where the delete did). */
  lemma RedoOfDeleteRestores<T>(xs: seq<T>, x: T)
    requires multiset(xs)[x] <= 1
    ensures RemoveFirst(RemoveFirst(xs, x) + [x], x) == RemoveFirst(xs, x)
  {
    RemoveFirstCounts(xs, x);
    assert x !in RemoveFirst(xs, x) by {
      assert multiset(RemoveFirst(xs, x))[x] == 0;
    }
    RemoveAppended(RemoveFirst(xs, x), x);
  }

  /** A shape created while it was already in the scene: create, undo, redo does not end where the
      create did, because the undo removes the lower copy. On [a, b] the create gives [a, b, a] and
      the redo gives [b, a, a]. */
  lemma CreateRedoOfPresentShapeReorders<T>(a: T, b: T)
    requires a != b
    ensures [a, b] + [a] == [a, b, a]
    ensures RemoveFirst([a, b] + [a], a) + [a] == [b, a, a]
    ensures [b, a, a] != [a, b, a]
  {
    assert ([a, b] + [a])[1..] == [b, a];
  }

  /** A shape occurring twice: delete, undo, redo does not end where the delete did. On [a, a, b]
      the delete gives [a, b] and the redo gives [b, a]. */
  lemma DeleteRedoOfDuplicateReorders<T>(a: T, b: T)
    requires a != b
    ensures RemoveFirst([a, a, b], a) == [a, b]
    ensures RemoveFirst(RemoveFirst([a, a, b], a) + [a], a) == [b, a]
    ensures [b, a] != [a, b]
  {
    assert [a, a, b][1..] == [a, b];
    assert ([a, b] + [a])[1..] == [b, a];
  }

  // ---------------------------------------------------------------------------------------------
  // Hit testing.

  /** The squared Euclidean distance. */
  function DistSq(a: Vec2, b: Vec2): real {
    Mul(a.x - b.x, a.x - b.x) + Mul(a.y - b.y, a.y - b.y)
  }

  /** `Distance(a, b) <= tol`, stated without the square root as a squared distance against tol². */
  predicate WithinTolerance(a: Vec2, b: Vec2, tol: real) {
    DistSq(a, b) <= Mul(tol, tol)
  }

  /** For a non-negative tolerance, comparing the Euclidean distance (any non-negative root of the
      squared distance) with tol is the same as comparing the squared distance with tol². */
  lemma DistanceAgainstTolerance(a: Vec2, b: Vec2, tol: real, dist: real)
    requires tol >= 0.0 && dist >= 0.0 && Mul(dist, dist) == DistSq(a, b)
    ensures dist <= tol <==> WithinTolerance(a, b, tol)
  {
    if dist < tol {
      SquareIncreasing(dist, tol);
    } else if tol < dist {
      SquareIncreasing(tol, dist);
    }
  }

  /** Distinct points are a positive squared distance apart. */
  lemma DistSqPositive(a: Vec2, b: Vec2)
    requires a != b
    ensures DistSq(a, b) > 0.0
  {
    SquareSign(a.x - b.x);
    SquareSign(a.y - b.y);
  }

  /** Which side of the line p2-p3 the point p1 is on (a cross product). */
  function Sign(p1: Vec2, p2: Vec2, p3: Vec2): real {
    (p1.x - p3.x) * (p2.y - p3.y) - (p2.x - p3.x) * (p1.y - p3.y)
  }

  /** Inside or on the triangle: the three signs are not some negative and some positive. */
  predicate PointInTriangle(pt: Vec2, v1: Vec2, v2: Vec2, v3: Vec2) {
    var d1 := Sign(pt, v1, v2);
    var d2 := Sign(pt, v2, v3);
    var d3 := Sign(pt, v3, v1);
    var hasNeg := d1 < 0.0 || d2 < 0.0 || d3 < 0.0;
    var hasPos := d1 > 0.0 || d2 > 0.0 || d3 > 0.0;
    !(hasNeg && hasPos)
  }

  /** The point of a segment of non-zero length closest to pt: the projection of pt on the line
      through it, with the line parameter clamped to [0, 1]. */
  function ClosestOnSegment(pt: Vec2, start: Vec2, end: Vec2): Vec2
    requires start != end
  {
    var dx := end.x - start.x;
    var dy := end.y - start.y;
    DistSqPositive(end, start);
    var t := (Mul(pt.x - start.x, dx) + Mul(pt.y - start.y, dy)) / DistSq(end, start);
    var t' := Max(0.0, Min(1.0, t));
    Vec2(start.x + Mul(t', dx), start.y + Mul(t', dy))
  }

  /** Within tol of the segment: of its start when it has zero length, otherwise of its closest point. */
  predicate PointNearSegment(pt: Vec2, start: Vec2, end: Vec2, tol: real) {
    if end.x - start.x == 0.0 && end.y - start.y == 0.0 then
      WithinTolerance(pt, start, tol)
    else
      WithinTolerance(pt, ClosestOnSegment(pt, start, end), tol)
  }

  /** The hit test of a circle centred at c. */
  predicate CircleHit(p: Vec2, c: Vec2, radius: real) {
    var dx := p.x - c.x;
    var dy := p.y - c.y;
    Mul(dx, dx) + Mul(dy, dy) <= Mul(radius, radius)
  }

  /** The hit test of a rectangle: inside its closed box, or near one of its edges. */
  predicate RectangleHit(p: Vec2, pos: Vec2, w: real, h: real) {
    var x, y := pos.x, pos.y;
    if x <= p.x <= x + w && y <= p.y <= y + h then true
    else
      var nearLeft := Abs(p.x - x) <= EdgeTolerance && y - EdgeTolerance <= p.y <= y + h + EdgeTolerance;
      var nearRight := Abs(p.x - (x + w)) <= EdgeTolerance && y - EdgeTolerance <= p.y <= y + h + EdgeTolerance;
      var nearTop := Abs(p.y - y) <= EdgeTolerance && x - EdgeTolerance <= p.x <= x + w + EdgeTolerance;
      var nearBottom := Abs(p.y - (y + h)) <= EdgeTolerance && x - EdgeTolerance <= p.x <= x + w + EdgeTolerance;
      nearLeft || nearRight || nearTop || nearBottom
  }

  /** The normalised radial value (nx² + ny²) of p in the ellipse inscribed in the box at pos. */
  function EllipseValue(p: Vec2, pos: Vec2, w: real, h: real): real
    requires w > 0.0 && h > 0.0
  {
    var rx := w / 2.0;
    var ry := h / 2.0;
    var nx := (p.x - (pos.x + rx)) / rx;
    var ny := (p.y - (pos.y + ry)) / ry;
    nx * nx + ny * ny
  }

  /** The hit test of an ellipse: never for a degenerate one, otherwise inside, or near the rim
      within a tolerance mapped from pixels to the normalised scale. */
  predicate EllipseHit(p: Vec2, pos: Vec2, w: real, h: real) {
    var rx := w / 2.0;
    var ry := h / 2.0;
    if rx <= 0.0 || ry <= 0.0 then false
    else
      var v := EllipseValue(p, pos, w, h);
      if v <= 1.0 then true
      else
        var eps := EdgeTolerance * (1.0 / Max(rx, 1.0) + 1.0 / Max(ry, 1.0));
        Abs(v - 1.0) <= eps
  }

  /** The hit test of a triangle: inside, or near one of its three edges. */
  predicate TriangleHit(p: Vec2, a: Vec2, b: Vec2, c: Vec2) {
    PointInTriangle(p, a, b, c)
    || PointNearSegment(p, a, b, EdgeTolerance)
    || PointNearSegment(p, b, c, EdgeTolerance)
    || PointNearSegment(p, c, a, EdgeTolerance)
  }

  /** IsPointInShape: dispatch on the kind of shape; the rotation plays no part. */
  predicate IsPointInShape(p: Vec2, v: ShapeValue) {
    match v.figure
    case Circle(r) => CircleHit(p, v.position, r)
    case Rectangle(w, h) => RectangleHit(p, v.position, w, h)
    case Ellipse(w, h) => EllipseHit(p, v.position, w, h)
    case Triangle(a, b, c) => TriangleHit(p, a, b, c)
    case LineSegment(e) => PointNearSegment(p, v.position, e, LineTolerance)
  }

  /** A circle of non-negative radius hits exactly the points at Euclidean distance at most the
      radius from its centre: the closed disc, rim included. */
  lemma CircleHitIsClosedDisc(p: Vec2, v: ShapeValue, dist: real)
    requires v.figure.Circle? && v.figure.radius >= 0.0
    requires dist >= 0.0 && Mul(dist, dist) == DistSq(p, v.position)
    ensures IsPointInShape(p, v) <==> dist <= v.figure.radius
  {
    DistanceAgainstTolerance(p, v.position, v.figure.radius, dist);
  }

  /** Every point of a rectangle's closed box hits, and so does every point within the tolerance of
      one of its four edge lines, inside the span of that edge extended by the tolerance. */
  lemma RectangleHits(p: Vec2, v: ShapeValue)
    requires v.figure.Rectangle?
    ensures var x, y, w, h := v.position.x, v.position.y, v.figure.width, v.figure.height;
            (x <= p.x <= x + w && y <= p.y <= y + h) ==> IsPointInShape(p, v)
    ensures var x, y, w, h := v.position.x, v.position.y, v.figure.width, v.figure.height;
            (Abs(p.x - x) <= EdgeTolerance && y - EdgeTolerance <= p.y <= y + h + EdgeTolerance) ==> IsPointInShape(p, v)
    ensures var x, y, w, h := v.position.x, v.position.y, v.figure.width, v.figure.height;
            (Abs(p.x - (x + w)) <= EdgeTolerance && y - EdgeTolerance <= p.y <= y + h + EdgeTolerance) ==> IsPointInShape(p, v)
    ensures var x, y, w, h := v.position.x, v.position.y, v.figure.width, v.figure.height;
            (Abs(p.y - y) <= EdgeTolerance && x - EdgeTolerance <= p.x <= x + w + EdgeTolerance) ==> IsPointInShape(p, v)
    ensures var x, y, w, h := v.position.x, v.position.y, v.figure.width, v.figure.height;
            (Abs(p.y - (y + h)) <= EdgeTolerance && x - EdgeTolerance <= p.x <= x + w + EdgeTolerance) ==> IsPointInShape(p, v)
  {
  }

  /** A rectangle misses every point farther than the tolerance from its box. */
  lemma RectangleMissesFarPoints(p: Vec2, v: ShapeValue)
    requires v.figure.Rectangle?
    requires var x, y, w, h := v.position.x, v.position.y, v.figure.width, v.figure.height;
             p.x < Min(x, x + w) - EdgeTolerance || p.x > Max(x, x + w) + EdgeTolerance ||
             p.y < Min(y, y + h) - EdgeTolerance || p.y > Max(y, y + h) + EdgeTolerance
    ensures !IsPointInShape(p, v)
  {
  }

  /** Rotation is ignored by every hit test. */
  lemma HitIgnoresRotation(p: Vec2, v: ShapeValue, angle: real)
    ensures IsPointInShape(p, v.(rotation := angle)) == IsPointInShape(p, v)
  {
  }

  /** An ellipse with a non-positive width or height is never hit; otherwise every point whose
      normalised value is at most 1 is hit, the centre among them. */
  lemma EllipseHits(p: Vec2, v: ShapeValue)
    requires v.figure.Ellipse?
    ensures v.figure.width <= 0.0 || v.figure.height <= 0.0 ==> !IsPointInShape(p, v)
    ensures v.figure.width > 0.0 && v.figure.height > 0.0 ==>
              (EllipseValue(p, v.position, v.figure.width, v.figure.height) <= 1.0 ==> IsPointInShape(p, v))
    ensures v.figure.width > 0.0 && v.figure.height > 0.0 ==>
            EllipseValue(Vec2(v.position.x + v.figure.width / 2.0, v.position.y + v.figure.height / 2.0),
                         v.position, v.figure.width, v.figure.height) == 0.0
  {
  }

  /** The sign test: inside iff the three signs are all non-negative or all non-positive. */
  lemma PointInTriangleSameSigns(pt: Vec2, v1: Vec2, v2: Vec2, v3: Vec2)
    ensures PointInTriangle(pt, v1, v2, v3) <==>
            (Sign(pt, v1, v2) >= 0.0 && Sign(pt, v2, v3) >= 0.0 && Sign(pt, v3, v1) >= 0.0) ||
            (Sign(pt, v1, v2) <= 0.0 && Sign(pt, v2, v3) <= 0.0 && Sign(pt, v3, v1) <= 0.0)
  {
  }

  /** Each vertex is inside its triangle (two of its signs are zero). */
  lemma {:induction false} VerticesInTriangle(v1: Vec2, v2: Vec2, v3: Vec2)
    ensures PointInTriangle(v1, v1, v2, v3)
    ensures PointInTriangle(v2, v1, v2, v3)
    ensures PointInTriangle(v3, v1, v2, v3)
  {
    assert Sign(v1, v1, v2) == 0.0 && Sign(v1, v3, v1) == 0.0;
    assert Sign(v2, v1, v2) == 0.0 && Sign(v2, v2, v3) == 0.0;
    assert Sign(v3, v2, v3) == 0.0 && Sign(v3, v3, v1) == 0.0;
  }

  /** A zero-length segment is near exactly the points within tol of it. */
  lemma DegenerateSegment(pt: Vec2, s: Vec2, tol: real)
    ensures PointNearSegment(pt, s, s, tol) == WithinTolerance(pt, s, tol)
  {
  }

  /** The closest point of a segment to its start is the start. */
  lemma ClosestToStart(s: Vec2, e: Vec2)
    requires s != e
    ensures ClosestOnSegment(s, s, e) == s
  {
    DistSqPositive(e, s);
    assert Mul(s.x - s.x, e.x - s.x) + Mul(s.y - s.y, e.y - s.y) == 0.0;
  }

  /** The closest point of a segment to its end is the end. */
  lemma ClosestToEnd(s: Vec2, e: Vec2)
    requires s != e
    ensures ClosestOnSegment(e, s, e) == e
  {
    DistSqPositive(e, s);
    assert DistSq(e, s) / DistSq(e, s) == 1.0;
  }

  /** Both endpoints of a segment are near it, for any non-negative tolerance. */
  lemma SegmentEndpointsNear(s: Vec2, e: Vec2, tol: real)
    requires tol >= 0.0
    ensures PointNearSegment(s, s, e, tol)
    ensures PointNearSegment(e, s, e, tol)
  {
    if s != e {
      ClosestToStart(s, e);
      ClosestToEnd(s, e);
    }
  }

  /** A triangle is hit at each of its vertices. */
  lemma TriangleHitAtVertices(v: ShapeValue)
    requires v.figure.Triangle?
    ensures IsPointInShape(v.figure.p1, v) && IsPointInShape(v.figure.p2, v) && IsPointInShape(v.figure.p3, v)
  {
    VerticesInTriangle(v.figure.p1, v.figure.p2, v.figure.p3);
  }

  /** A line segment is hit at both of its endpoints. */
  lemma LineHitAtEndpoints(v: ShapeValue)
    requires v.figure.LineSegment?
    ensures IsPointInShape(v.position, v) && IsPointInShape(v.figure.end, v)
  {
    SegmentEndpointsNear(v.position, v.figure.end, LineTolerance);
  }

  // ---------------------------------------------------------------------------------------------
  // The scene object.

  class Scene {
    /** The private list; index order is z-order, the last element is drawn last and is topmost. */
    var shapes: seq<Shape>

    constructor ()
      ensures shapes == []
    {
      shapes := [];
    }

    method Add(s: Shape)
      modifies this
      ensures shapes == old(shapes) + [s]
    {
      shapes := shapes + [s];
    }

    method Remove(s: Shape)
      modifies this
      ensures shapes == RemoveFirst(old(shapes), s)
    {
      shapes := RemoveFirst(shapes, s);
    }

    method Clear()
      modifies this
      ensures shapes == []
    {
      shapes := [];
    }

    /** r is what FindShapeAt(p) must return: the shape at the highest index whose hit test succeeds,
        or null when none does. */
    predicate IsTopmostAt(p: Vec2, r: Shape?)
      reads this, shapes
    {
      if r == null then
        forall i :: 0 <= i < |shapes| ==> !IsPointInShape(p, shapes[i].Value())
      else
        exists i :: 0 <= i < |shapes| && shapes[i] == r && IsPointInShape(p, shapes[i].Value()) &&
                    forall j :: i < j < |shapes| ==> !IsPointInShape(p, shapes[j].Value())
    }

    /** Searches from the topmost shape down. */
    method FindShapeAt(p: Vec2) returns (r: Shape?)
      ensures IsTopmostAt(p, r)
    {
      var i := |shapes| - 1;
      while i >= 0
        invariant -1 <= i < |shapes|
        invariant forall j :: i < j < |shapes| ==> !IsPointInShape(p, shapes[j].Value())
      {
        var shape := shapes[i];
        if IsPointInShape(p, shape.Value()) {
          return shape;
        }
        i := i - 1;
      }
      return null;
    }

    /** At most one answer satisfies IsTopmostAt, so FindShapeAt's result is determined. */
    lemma TopmostIsUnique(p: Vec2, r1: Shape?, r2: Shape?)
      requires IsTopmostAt(p, r1) && IsTopmostAt(p, r2)
      ensures r1 == r2
    {
      if r1 != null && r2 != null {
        var i1 :| 0 <= i1 < |shapes| && shapes[i1] == r1 && IsPointInShape(p, shapes[i1].Value()) &&
                  forall j :: i1 < j < |shapes| ==> !IsPointInShape(p, shapes[j].Value());
        var i2 :| 0 <= i2 < |shapes| && shapes[i2] == r2 && IsPointInShape(p, shapes[i2].Value()) &&
                  forall j :: i2 < j < |shapes| ==> !IsPointInShape(p, shapes[j].Value());
      }
    }
  }
}
