/**
 * The shape hierarchy (Models/Shape.cs and its subclasses). The abstract class Shape and its closed
 * set of subclasses become one class whose base fields are those of Shape and whose `figure` holds
 * the fields of the concrete subclass. Each operation is specified by a function on ShapeValue, the
 * snapshot of all fields.
 */
module Shapes {
  import opened Vectors
  import opened Colors

  /** The fields a concrete subclass adds to Shape. Position is the centre of a circle, the top-left
      corner of a rectangle or ellipse, and the start of a line segment; a triangle does not use it. */
  datatype Figure =
    | Circle(radius: real)
    | Rectangle(width: real, height: real)
    | Ellipse(width: real, height: real)
    | Triangle(p1: Vec2, p2: Vec2, p3: Vec2)
    | LineSegment(end: Vec2)

  /** Every field of a shape object at one moment. */
  datatype ShapeValue = ShapeValue(position: Vec2, fill: Color, stroke: Color, rotation: real, figure: Figure) {

    /** Move(delta): translate every point the variant draws from. */
    function Moved(d: Vec2): ShapeValue {
      match figure
      case Circle(_) => this.(position := position.Plus(d))
      // RectangleShape.cs is not part of this model: the rectangle stands in with the ellipse's behaviour.
      case Rectangle(_, _) => this.(position := position.Plus(d))
      case Ellipse(_, _) => this.(position := position.Plus(d))
      case Triangle(a, b, c) => this.(figure := Triangle(a.Plus(d), b.Plus(d), c.Plus(d)))
      case LineSegment(e) => this.(position := position.Plus(d), figure := LineSegment(e.Plus(d)))
    }

    /** Resize(factor): scale the extent about the variant's anchor. */
    function Resized(f: real): ShapeValue {
      match figure
      case Circle(r) => this.(figure := Circle(Mul(r, f)))
      case Rectangle(w, h) => this.(figure := Rectangle(Mul(w, f), Mul(h, f)))
      case Ellipse(w, h) => this.(figure := Ellipse(Mul(w, f), Mul(h, f)))
      case Triangle(a, b, c) =>
        var m := Centroid(a, b, c);
        this.(figure := Triangle(ScaleAbout(m, a, f), ScaleAbout(m, b, f), ScaleAbout(m, c, f)))
      case LineSegment(e) =>
        this.(figure := LineSegment(Vec2(position.x + Mul(e.x - position.x, f), position.y + Mul(e.y - position.y, f))))
    }

    /** Clone(): a new object of the same variant, initialised with the fields its Clone copies;
        every other field keeps the default of a newly constructed object. */
    function Cloned(): ShapeValue {
      match figure
      case Circle(r) => NewCircle.(position := position, figure := Circle(r), fill := fill, stroke := stroke)
      // Stand-in, as in Moved: every field copied, like the ellipse's Clone.
      case Rectangle(_, _) => this
      case Ellipse(_, _) => NewEllipse.(position := position, figure := figure, fill := fill, stroke := stroke, rotation := rotation)
      case Triangle(_, _, _) => NewTriangle.(figure := figure, fill := fill, stroke := stroke)
      case LineSegment(_) => NewLineSegment.(position := position, figure := figure, stroke := stroke)
    }
  }

  /** Shape's property initialisers: position (0,0), LightGray fill, Black stroke, rotation 0. */
  function NewShape(f: Figure): ShapeValue {
    ShapeValue(Origin, LightGray, Black, 0.0, f)
  }

  /** `new Circle()`: radius 50. */
  const NewCircle: ShapeValue := NewShape(Circle(50.0))
  /** `new EllipseShape()`: 100 wide, 60 high. */
  const NewEllipse: ShapeValue := NewShape(Ellipse(100.0, 60.0))
  /** `new Triangle()`: all three vertices at the default Vec2, (0,0). */
  const NewTriangle: ShapeValue := NewShape(Triangle(Origin, Origin, Origin))
  /** `new LineSegment()`: the end at the default Vec2, (0,0). */
  const NewLineSegment: ShapeValue := NewShape(LineSegment(Origin))

  function Centroid(a: Vec2, b: Vec2, c: Vec2): Vec2 {
    Vec2((a.x + b.x + c.x) / 3.0, (a.y + b.y + c.y) / 3.0)
  }

  /** The image of p under scaling by f about centre m. */
  function ScaleAbout(m: Vec2, p: Vec2, f: real): Vec2 {
    Vec2(m.x + Mul(p.x - m.x, f), m.y + Mul(p.y - m.y, f))
  }

  /** A shape object. Identity matters: the scene removes by reference and commands hold references. */
  class Shape {
    var position: Vec2
    var fill: Color
    var stroke: Color
    var rotation: real
    var figure: Figure

    function Value(): ShapeValue
      reads this
    {
      ShapeValue(position, fill, stroke, rotation, figure)
    }

    /** Allocation followed by an object initializer that sets every field to v's. */
    constructor (v: ShapeValue)
      ensures Value() == v
    {
      position, fill, stroke, rotation, figure := v.position, v.fill, v.stroke, v.rotation, v.figure;
    }

    method Move(d: Vec2)
      modifies this
      ensures Value() == old(Value()).Moved(d)
    {
      match figure {
        case Circle(_) =>
          position := Vec2(position.x + d.x, position.y + d.y);
        case Rectangle(_, _) =>
          position := Vec2(position.x + d.x, position.y + d.y);
        case Ellipse(_, _) =>
          position := Vec2(position.x + d.x, position.y + d.y);
        case Triangle(a, b, c) =>
          figure := Triangle(Vec2(a.x + d.x, a.y + d.y), b, c);
          figure := figure.(p2 := Vec2(b.x + d.x, b.y + d.y));
          figure := figure.(p3 := Vec2(c.x + d.x, c.y + d.y));
        case LineSegment(e) =>
          position := Vec2(position.x + d.x, position.y + d.y);
          figure := LineSegment(Vec2(e.x + d.x, e.y + d.y));
      }
    }

    method Resize(f: real)
      modifies this
      ensures Value() == old(Value()).Resized(f)
    {
      match figure {
        case Circle(r) =>
          figure := Circle(Mul(r, f));
        case Rectangle(w, h) =>
          figure := Rectangle(Mul(w, f), Mul(h, f));
        case Ellipse(w, h) =>
          figure := Ellipse(Mul(w, f), Mul(h, f));
        case Triangle(a, b, c) =>
          var centerX := (a.x + b.x + c.x) / 3.0;
          var centerY := (a.y + b.y + c.y) / 3.0;
          figure := figure.(p1 := Vec2(centerX + Mul(a.x - centerX, f), centerY + Mul(a.y - centerY, f)));
          figure := figure.(p2 := Vec2(centerX + Mul(b.x - centerX, f), centerY + Mul(b.y - centerY, f)));
          figure := figure.(p3 := Vec2(centerX + Mul(c.x - centerX, f), centerY + Mul(c.y - centerY, f)));
        case LineSegment(e) =>
          var dx := e.x - position.x;
          var dy := e.y - position.y;
          figure := LineSegment(Vec2(position.x + Mul(dx, f), position.y + Mul(dy, f)));
      }
    }

    /** A fresh object; the original is not changed, and later changes to either leave the other alone. */
    method Clone() returns (c: Shape)
      ensures fresh(c)
      ensures c.Value() == old(Value()).Cloned()
    {
      c := new Shape(Value().Cloned());
    }
  }

  /** Moving by d and then by -d restores every field of a circle, ellipse, triangle or line
      (exactly, over the reals). */
  lemma MoveRoundTrip(v: ShapeValue, d: Vec2)
    requires !v.figure.Rectangle?
    ensures v.Moved(d).Moved(d.Negated()) == v
  {
  }

  /** What Move leaves alone: colours and rotation always; the circle's radius, the ellipse's size, the triangle's unused Position, and the line's direction vector End - Position. */
  lemma MoveKeepsShape(v: ShapeValue, d: Vec2)
    requires !v.figure.Rectangle?
    ensures v.Moved(d).fill == v.fill && v.Moved(d).stroke == v.stroke && v.Moved(d).rotation == v.rotation
    ensures v.figure.Circle? ==> v.Moved(d).figure == v.figure && v.Moved(d).position == v.position.Plus(d)
    ensures v.figure.Ellipse? ==> v.Moved(d).figure == v.figure && v.Moved(d).position == v.position.Plus(d)
    ensures v.figure.Triangle? ==> v.Moved(d).position == v.position
    ensures v.figure.LineSegment? ==>
              v.Moved(d).figure.end.Minus(v.Moved(d).position) == v.figure.end.Minus(v.position)
  {
  }

  /** A triangle's Move adds d to each vertex. */
  lemma TriangleMoveTranslatesVertices(v: ShapeValue, d: Vec2)
    requires v.figure.Triangle?
    ensures v.Moved(d).figure.Triangle?
    ensures v.Moved(d).figure.p1 == v.figure.p1.Plus(d)
    ensures v.Moved(d).figure.p2 == v.figure.p2.Plus(d)
    ensures v.Moved(d).figure.p3 == v.figure.p3.Plus(d)
  {
  }

  /** A line segment's Move adds d to both endpoints. */
  lemma LineMoveTranslatesEndpoints(v: ShapeValue, d: Vec2)
    requires v.figure.LineSegment?
    ensures v.Moved(d).position == v.position.Plus(d)
    ensures v.Moved(d).figure == LineSegment(v.figure.end.Plus(d))
  {
  }

  /** Resize of a circle, ellipse, triangle or line keeps position, colours and rotation; a circle's radius and an ellipse's width and height
      are multiplied by the factor. */
  lemma ResizeScalesExtent(v: ShapeValue, f: real)
    requires !v.figure.Rectangle?
    ensures v.Resized(f).position == v.position && v.Resized(f).rotation == v.rotation
    ensures v.Resized(f).fill == v.fill && v.Resized(f).stroke == v.stroke
    ensures v.figure.Circle? ==> v.Resized(f).figure == Circle(v.figure.radius * f)
    ensures v.figure.Ellipse? ==> v.Resized(f).figure == Ellipse(v.figure.width * f, v.figure.height * f)
  {
  }

  /** A triangle's Resize keeps its centroid (P1+P2+P3)/3 where it was. */
  lemma {:induction false} TriangleResizeKeepsCentroid(v: ShapeValue, f: real)
    requires v.figure.Triangle?
    ensures v.Resized(f).figure.Triangle?
    ensures var t := v.Resized(f).figure;
            Centroid(t.p1, t.p2, t.p3) == Centroid(v.figure.p1, v.figure.p2, v.figure.p3)
  {
    var Triangle(a, b, c) := v.figure;
    var m := Centroid(a, b, c);
    var a', b', c' := ScaleAbout(m, a, f), ScaleAbout(m, b, f), ScaleAbout(m, c, f);
    assert a'.x + b'.x + c'.x == 3.0 * m.x + (a.x + b.x + c.x - 3.0 * m.x) * f;
    assert a'.y + b'.y + c'.y == 3.0 * m.y + (a.y + b.y + c.y - 3.0 * m.y) * f;
  }

  /** A line segment's Resize keeps the start and scales the vector End - Position by the factor. */
  lemma LineResizeScalesFromStart(v: ShapeValue, f: real)
    requires v.figure.LineSegment?
    ensures v.Resized(f).position == v.position
    ensures v.Resized(f).figure.LineSegment?
    ensures var e := v.figure.end; var e' := v.Resized(f).figure.end;
            e'.Minus(v.position) == Vec2((e.x - v.position.x) * f, (e.y - v.position.y) * f)
  {
  }

  /** Resize(1) changes nothing, for a circle, ellipse, triangle or line. */
  lemma ResizeByOneIsIdentity(v: ShapeValue)
    requires !v.figure.Rectangle?
    ensures v.Resized(1.0) == v
  {
  }

  /** What each Clone of a circle, ellipse, triangle or line copies and what it leaves at the default:
      the figure and stroke always; position except for a triangle; fill except for a line segment;
      rotation only for the ellipse. */
  lemma CloneCopies(v: ShapeValue)
    requires !v.figure.Rectangle?
    ensures v.Cloned().figure == v.figure && v.Cloned().stroke == v.stroke
    ensures v.Cloned().position == if v.figure.Triangle? then Origin else v.position
    ensures v.Cloned().fill == if v.figure.LineSegment? then LightGray else v.fill
    ensures v.Cloned().rotation == if v.figure.Ellipse? then v.rotation else 0.0
  {
  }

  /** The defaults of newly constructed shapes. */
  lemma NewShapeDefaults(f: Figure)
    ensures NewShape(f).position == Vec2(0.0, 0.0) && NewShape(f).rotation == 0.0
    ensures NewShape(f).fill == LightGray && NewShape(f).stroke == Black
    ensures NewCircle.figure.radius == 50.0
    ensures NewEllipse.figure.width == 100.0 && NewEllipse.figure.height == 60.0
  {
  }
}
