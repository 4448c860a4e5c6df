/**
 * Points of the plane, the square root that measures distances between them, and the few
 * facts of real arithmetic the section calculations rest on.
 *
 * The calculator takes its segment lengths from the platform square root. The model does
 * not fix a concrete square-root function: every operation that needs one receives it as a
 * parameter `sqrt` together with the requirement `IsSqrt(sqrt)`, the laws of the square root
 * on the non-negative reals. `SqrtUnique` shows that these laws determine the value at every
 * non-negative argument, so no behaviour of the program is lost by this abstraction.
 */
module Geometry {

  /** A point of the column-centred coordinate frame. */
  datatype Point = Point(x: real, y: real)

  /** The laws of the square root on the non-negative reals. */
  ghost predicate IsSqrt(sqrt: real -> real)
  {
    forall v: real :: 0.0 <= v ==> 0.0 <= sqrt(v) && sqrt(v) * sqrt(v) == v
  }

  function Abs(v: real): (r: real)
    ensures 0.0 <= r
    ensures r == v || r == -v
  {
    if v < 0.0 then -v else v
  }

  /** The squared Euclidean distance between two points. */
  /** The larger of two numbers. */
  function Larger(a: real, b: real): real
  {
    if a < b then b else a
  }

  /** The smaller of two numbers. */
  function Smaller(a: real, b: real): real
  {
    if a < b then a else b
  }

  function SquaredDistance(p: Point, q: Point): real
  {
    (q.x - p.x) * (q.x - p.x) + (q.y - p.y) * (q.y - p.y)
  }

  /** The Euclidean distance between two points, `sqrt((x2 - x1)**2 + (y2 - y1)**2)`. */
  function Distance(sqrt: real -> real, p: Point, q: Point): real
  {
    sqrt(SquaredDistance(p, q))
  }

  lemma MulPositive(a: real, b: real)
    requires 0.0 < a && 0.0 < b
    ensures 0.0 < a * b
  {
  }

  lemma MulNonNegative(a: real, b: real)
    requires 0.0 <= a && 0.0 <= b
    ensures 0.0 <= a * b
  {
  }

  /** Squaring is strictly increasing on the non-negative reals. */
  lemma SquareStrictlyIncreasing(q: real, r: real)
    requires 0.0 <= q < r
    ensures q * q < r * r
  {
    var a := q * q;
    var b := q * r;
    var c := r * r;
    assert a <= b;
    assert b < c;
  }

  lemma SquareNonNegative(v: real)
    ensures 0.0 <= v * v
  {
    if v < 0.0 {
      MulPositive(-v, -v);
      assert (-v) * (-v) == v * v;
    }
  }

  /** Two non-negative reals with equal squares are equal. */
  lemma SquareInjective(q: real, r: real)
    requires 0.0 <= q && 0.0 <= r
    requires q * q == r * r
    ensures q == r
  {
    if q < r {
      SquareStrictlyIncreasing(q, r);
    } else if r < q {
      SquareStrictlyIncreasing(r, q);
    }
  }

  /** If v * v <= r * r and r is non-negative, then -r <= v <= r. */
  lemma SquareBound(v: real, r: real)
    requires 0.0 <= r
    requires v * v <= r * r
    ensures -r <= v <= r
  {
    if r < v {
      SquareStrictlyIncreasing(r, v);
    } else if v < -r {
      assert (-v) * (-v) == v * v;
      SquareStrictlyIncreasing(r, -v);
    }
  }

  lemma MulLeft(k: real, a: real, b: real)
    requires 0.0 <= k && a <= b
    ensures k * a <= k * b
  {
    MulNonNegative(k, b - a);
    assert k * (b - a) == k * b - k * a;
  }

  /** The square-root laws determine the root: any non-negative r with r * r == v is sqrt(v). */
  lemma SqrtUnique(sqrt: real -> real, v: real, r: real)
    requires IsSqrt(sqrt)
    requires 0.0 <= r && r * r == v
    ensures sqrt(v) == r
  {
    SquareNonNegative(r);
    SquareInjective(sqrt(v), r);
  }

  /** Two functions that both obey the square-root laws agree on every non-negative argument. */
  lemma SqrtDetermined(sqrt1: real -> real, sqrt2: real -> real, v: real)
    requires IsSqrt(sqrt1) && IsSqrt(sqrt2)
    requires 0.0 <= v
    ensures sqrt1(v) == sqrt2(v)
  {
    SqrtUnique(sqrt1, v, sqrt2(v));
  }

  /** The squared distance is non-negative and vanishes exactly between equal points. */
  lemma SquaredDistanceFacts(p: Point, q: Point)
    ensures 0.0 <= SquaredDistance(p, q)
    ensures SquaredDistance(p, q) == 0.0 ==> p == q
  {
    var dx, dy := q.x - p.x, q.y - p.y;
    SquareNonNegative(dx);
    SquareNonNegative(dy);
    if dx != 0.0 {
      SquareStrictlyIncreasing(0.0, Abs(dx));
      assert Abs(dx) * Abs(dx) == dx * dx;
    } else if dy != 0.0 {
      SquareStrictlyIncreasing(0.0, Abs(dy));
      assert Abs(dy) * Abs(dy) == dy * dy;
    }
  }

  /** Distances are non-negative, vanish exactly between equal points and square to the squared distance. */
  lemma DistanceFacts(sqrt: real -> real, p: Point, q: Point)
    requires IsSqrt(sqrt)
    ensures 0.0 <= Distance(sqrt, p, q)
    ensures Distance(sqrt, p, q) * Distance(sqrt, p, q) == SquaredDistance(p, q)
    ensures Distance(sqrt, p, q) == 0.0 ==> p == q
    ensures p == q ==> Distance(sqrt, p, q) == 0.0
  {
    SquaredDistanceFacts(p, q);
    if p == q {
      SqrtUnique(sqrt, SquaredDistance(p, q), 0.0);
    }
  }
}
