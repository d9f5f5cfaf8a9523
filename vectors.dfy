/** Two-dimensional points and offsets (Models/Vec2.cs), with coordinates as reals. */
module Vectors {

  /** A point or an offset. A datatype is a value: a copy never aliases the original. */
  datatype Vec2 = Vec2(x: real, y: real) {

    /** Component-wise sum, as written out in every Move. */
    function Plus(d: Vec2): Vec2 {
      Vec2(x + d.x, y + d.y)
    }

    /** Component-wise negation, as built by MoveShapeCommand.Undo. */
    function Negated(): Vec2 {
      Vec2(-x, -y)
    }

    /** Component-wise difference. */
    function Minus(o: Vec2): Vec2 {
      Vec2(x - o.x, y - o.y)
    }
  }

  const Origin: Vec2 := Vec2(0.0, 0.0)

  /** Real product, kept as one named operation so that the solver matches products by name; the
      facts about products that the proofs need are the lemmas below, each proved on distinct
      variables. */
  function Mul(a: real, b: real): real {
    a * b
  }

  lemma MulPositive(a: real, b: real)
    requires a > 0.0 && b > 0.0
    ensures Mul(a, b) > 0.0
  {
  }

  lemma MulNegated(a: real, b: real)
    ensures Mul(-a, -b) == Mul(a, b)
  {
  }

  lemma MulLeftStrict(a: real, b: real, c: real)
    requires a < b && c > 0.0
    ensures Mul(a, c) < Mul(b, c)
  {
    assert b * c - a * c == (b - a) * c;
    MulPositive(b - a, c);
  }

  lemma MulRightMonotone(c: real, a: real, b: real)
    requires c >= 0.0 && a <= b
    ensures Mul(c, a) <= Mul(c, b)
  {
    if c > 0.0 && a < b {
      assert c * b - c * a == c * (b - a);
      MulPositive(c, b - a);
    }
  }

  /** A square is never negative, and positive unless the number squared is zero. */
  lemma SquareSign(d: real)
    ensures Mul(d, d) >= 0.0
    ensures d != 0.0 ==> Mul(d, d) > 0.0
  {
    if d > 0.0 {
      MulPositive(d, d);
    } else if d < 0.0 {
      MulPositive(-d, -d);
      MulNegated(d, d);
    } else {
      assert Mul(d, d) == 0.0;
    }
  }

  /** Squaring is strictly increasing on the non-negative reals. */
  lemma SquareIncreasing(a: real, b: real)
    requires 0.0 <= a < b
    ensures Mul(a, a) < Mul(b, b)
  {
    MulRightMonotone(a, a, b);
    MulLeftStrict(a, b, b);
  }

  function Abs(a: real): real {
    if a < 0.0 then -a else a
  }

  function Max(a: real, b: real): real {
    if a >= b then a else b
  }

  function Min(a: real, b: real): real {
    if a <= b then a else b
  }

  /** Adding an offset and then its negation is the identity, exactly, over the reals. */
  lemma PlusNegatedCancels(p: Vec2, d: Vec2)
    ensures p.Plus(d).Plus(d.Negated()) == p
  {
  }
}
