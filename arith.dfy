/** Facts about products and squares of reals that the distance
    comparisons rely on. Products go through `Mul` so that the solver
    treats them as terms of their own. */
module RealArith {

  function Mul(a: real, b: real): real { a * b }

  function Square(v: real): real { Mul(v, v) }

  lemma MulPositive(a: real, b: real)
    requires a > 0.0 && b > 0.0
    ensures Mul(a, b) > 0.0
  {
  }

  lemma MulLeftMonotone(c: real, a: real, b: real)
    requires a <= b && c >= 0.0
    ensures Mul(c, a) <= Mul(c, b)
  {
    if c > 0.0 && a < b {
      MulPositive(c, b - a);
      assert Mul(c, b - a) == Mul(c, b) - Mul(c, a);
    }
  }

  lemma MulRightStrictMonotone(a: real, b: real, c: real)
    requires a < b && c > 0.0
    ensures Mul(a, c) < Mul(b, c)
  {
    MulPositive(b - a, c);
    assert Mul(b - a, c) == Mul(b, c) - Mul(a, c);
  }

  /** A square is never negative, and is zero only for zero. */
  lemma SquareNonNegative(v: real)
    ensures Square(v) >= 0.0
    ensures Square(v) == 0.0 <==> v == 0.0
  {
    if v < 0.0 {
      MulPositive(-v, -v);
      assert Mul(-v, -v) == Mul(v, v);
    } else if v > 0.0 {
      MulPositive(v, v);
    }
  }

  /** For non-negative `d` and positive `t`, comparing the squares is
      comparing the values: this is what lets a distance `sqrt(q)` be
      compared against a threshold `t` as `q < t * t`. */
  lemma SquareBelowIffBelow(d: real, t: real)
    requires d >= 0.0 && t > 0.0
    ensures Square(d) < Square(t) <==> d < t
  {
    if d < t {
      MulLeftMonotone(d, d, t);
      MulRightStrictMonotone(d, t, t);
    } else {
      MulLeftMonotone(d, t, d);
      MulLeftMonotone(t, t, d);
      assert Mul(t, d) == Mul(d, t);
    }
  }

  lemma MulHalf(a: real, b: real)
    ensures Mul(a / 2.0, b) == Mul(a, b / 2.0)
  {
  }

  /** For a positive threshold `t`, a squared length `q` decides every
      comparison of the length itself with `t`: whichever non-negative `d`
      has `q` as its square, `q < t²` exactly when `d < t` and `q > t²`
      exactly when `d > t`. */
  lemma SquaresDecideLength(q: real, t: real)
    requires t > 0.0
    ensures forall d :: d >= 0.0 && Square(d) == q ==>
      (q < Square(t) <==> d < t) && (q > Square(t) <==> d > t)
  {
    forall d | d >= 0.0 && Square(d) == q
      ensures (q < Square(t) <==> d < t) && (q > Square(t) <==> d > t)
    {
      SquareBelowIffBelow(d, t);
      if d > t {
        SquareBelowIffBelow(t, d);
      }
    }
  }
}
