/**
 * Arena coordinates. Phaser works with floating-point pixels; the model uses
 * integers and compares squared distances with squared radii, which answers
 * the same "within / farther than" questions without square roots.
 */
module Geometry {
  datatype Pos = Pos(x: int, y: int)

  function Square(n: int): (r: int)
    ensures r >= 0
    ensures n != 0 ==> r > 0
  {
    if n >= 0 then SquareOfNat(n); n * n else SquareOfNat(-n); (-n) * (-n)
  }

  lemma SquareOfNat(n: nat)
    ensures n * n >= 0 && (n > 0 ==> n * n >= n)
  {
    if n > 0 {
      assert n * n == n * (n - 1) + n;
      SquareOfNat(n - 1);
    }
  }

  /** Squared Euclidean distance between two points. */
  function DistSq(a: Pos, b: Pos): (d: int)
    ensures d >= 0
    ensures d == 0 <==> a == b
  {
    Square(a.x - b.x) + Square(a.y - b.y)
  }

  /** `Phaser.Math.Distance.Between(a, b) > r`, for a non-negative radius. */
  predicate FartherThan(a: Pos, b: Pos, r: nat)
  {
    DistSq(a, b) > r * r
  }

  /** For points on one horizontal line, "farther than r" is "more than r apart in x". */
  lemma {:induction false} FartherOnLine(x: nat, r: nat, y: int)
    ensures FartherThan(Pos(x, y), Pos(0, y), r) <==> x > r
  {
    assert DistSq(Pos(x, y), Pos(0, y)) == x * x;
    if x > r {
      MulStrictlyMonotone(r, x);
    } else {
      MulMonotone(x, r);
    }
  }

  lemma MulStrictlyMonotone(a: nat, b: nat)
    requires a < b
    ensures a * a < b * b
  {
    assert a * a <= a * b;
    assert a * b < b * b;
  }

  lemma MulMonotone(a: nat, b: nat)
    requires a <= b
    ensures a * a <= b * b
  {
    assert a * a <= a * b;
    assert a * b <= b * b;
  }
}
