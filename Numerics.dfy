/** Exact-arithmetic stand-ins for the numpy and pandas scalar helpers used by
    the interpolation engine: rounding to the nearest integer, clipping to a
    range, and the closeness test on line endpoints. */
module Numerics {

  function Abs(v: real): (r: real)
    ensures r >= 0.0 && (r == v || r == -v)
  {
    if v < 0.0 then -v else v
  }

  function Min(a: real, b: real): (r: real)
    ensures r <= a && r <= b && (r == a || r == b)
  {
    if a <= b then a else b
  }

  function Max(a: real, b: real): (r: real)
    ensures r >= a && r >= b && (r == a || r == b)
  {
    if a <= b then b else a
  }

  /** The value itself. Sq multiplies v by Same(v) rather than by v, so that
      the solver sees a product of two terms instead of a power. */
  function Same(v: real): (r: real)
    ensures r == v
  {
    v
  }

  /** The square v ** 2 (equally v * v). */
  function Sq(v: real): (r: real)
    ensures r >= 0.0
    ensures v != 0.0 ==> r > 0.0
  {
    if v > 0.0 then PositiveProduct(v, Same(v)); v * Same(v)
    else if v < 0.0 then PositiveProduct(-v, -Same(v)); v * Same(v)
    else v * Same(v)
  }

  lemma PositiveProduct(a: real, b: real)
    requires a > 0.0 && b > 0.0
    ensures a * b > 0.0
  {
  }

  /** The square of a product is the product of the squares. */
  lemma SqProduct(a: real, b: real)
    ensures Sq(a * b) == Sq(a) * Sq(b)
  {
  }

  lemma SqNegate(v: real)
    ensures Sq(-v) == Sq(v)
  {
  }

  /** Squaring is monotone on non-negative values. */
  lemma SqMonotone(u: real, v: real)
    requires 0.0 <= u <= v
    ensures Sq(u) <= Sq(v)
  {
    ProductMonotone(u, v, Same(u), Same(v));
  }

  lemma ProductMonotone(a: real, b: real, c: real, d: real)
    requires 0.0 <= a <= b && 0.0 <= c <= d
    ensures a * c <= b * d
  {
    assert a * c <= a * d;
  }

  /** A half-open range lo <= index < hi of pixel indices along one axis. */
  datatype Range = Range(lo: int, hi: int)

  /** Pixel i covers [i, i + 1) in pixel coordinates; its centre sits at i + 0.5. */
  function Mid(i: int): real
  {
    i as real + 0.5
  }

  /** numpy.rint: the nearest integer, halfway cases going to the even neighbour. */
  function Rint(v: real): (r: int)
    ensures -0.5 <= r as real - v <= 0.5
    ensures (r as real - v == 0.5 || v - r as real == 0.5) ==> r % 2 == 0
  {
    var f := v.Floor;
    var d := v - f as real;
    if d < 0.5 then f
    else if d > 0.5 then f + 1
    else if f % 2 == 0 then f else f + 1
  }

  /** Rounding never reverses the order of two values. */
  lemma RintMonotone(a: real, b: real)
    requires a <= b
    ensures Rint(a) <= Rint(b)
  {
    if a < b {
      // Rint(a) <= a + 1/2 < b + 1/2 <= Rint(b) + 1
      assert (Rint(a) as real) < (Rint(b) as real) + 1.0;
    }
  }

  /** pandas Series.clip with scalar bounds. Bounds given in the wrong order
      are swapped before clipping. */
  function Clip(v: real, lower: real, upper: real): (r: real)
    ensures Min(lower, upper) <= r <= Max(lower, upper)
    ensures Min(lower, upper) <= v <= Max(lower, upper) ==> r == v
    ensures v < Min(lower, upper) ==> r == Min(lower, upper)
    ensures v > Max(lower, upper) ==> r == Max(lower, upper)
  {
    var lo := Min(lower, upper);
    var hi := Max(lower, upper);
    if v < lo then lo else if v > hi then hi else v
  }

  /** A value inside the bounds and below (above) the clipped v is below
      (above) v itself. */
  lemma BelowClipped(v: real, lower: real, upper: real, x: real)
    requires Min(lower, upper) <= x <= Max(lower, upper) && x < Clip(v, lower, upper)
    ensures x < v
  {
  }

  lemma AboveClipped(v: real, lower: real, upper: real, x: real)
    requires Min(lower, upper) <= x <= Max(lower, upper) && Clip(v, lower, upper) < x
    ensures v < x
  {
  }

  /** Clipping an integral value to the integer range [lower, upper]. */
  function ClipInt(v: int, lower: int, upper: int): (r: int)
    requires lower <= upper
    ensures lower <= r <= upper
    ensures lower <= v <= upper ==> r == v
    ensures v < lower ==> r == lower
    ensures v > upper ==> r == upper
  {
    if v < lower then lower else if v > upper then upper else v
  }

  /** Clipping is monotone in the clipped value. */
  lemma ClipMonotone(a: real, b: real, lower: real, upper: real)
    requires a <= b
    ensures Clip(a, lower, upper) <= Clip(b, lower, upper)
  {
  }

  const RelTol: real := 0.00001
  const AbsTol: real := 0.00000001

  /** numpy.isclose(a, b) with its default tolerances; note that it is not
      symmetric: the relative tolerance scales with |b|. */
  predicate IsClose(a: real, b: real)
  {
    Abs(a - b) <= AbsTol + RelTol * Abs(b)
  }

  /** Equal values are always close, so two values that are not close differ. */
  lemma NotCloseDiffer(a: real, b: real)
    ensures !IsClose(a, b) ==> a != b
  {
  }

  /** A square root that is exact on non-negative arguments. */
  ghost predicate SqrtExact(sqrt: real -> real)
  {
    forall d :: d >= 0.0 ==> sqrt(d) >= 0.0 && Sq(sqrt(d)) == d
  }

  /** What the model needs of the square root it is given: a positive
      argument has a positive root. */
  ghost predicate SqrtPositive(sqrt: real -> real)
  {
    forall v :: v > 0.0 ==> sqrt(v) > 0.0
  }

  /** A square root that preserves order on non-negative arguments and is
      itself non-negative. */
  ghost predicate SqrtMonotone(sqrt: real -> real)
  {
    && (forall v :: v >= 0.0 ==> sqrt(v) >= 0.0)
    && (forall a, b :: 0.0 <= a <= b ==> sqrt(a) <= sqrt(b))
  }

  /** The discriminant b^2 - 4 a c of a x^2 + b x + c. */
  function Discriminant(a: real, b: real, c: real): real
  {
    Sq(b) - 4.0 * a * c
  }

  /** 4a (a x^2 + b x + c) == (2 a x + b)^2 + (4 a c - b^2). */
  lemma CompleteSquare(a: real, b: real, c: real, x: real)
    ensures 4.0 * a * (a * Sq(x) + b * x + c) == Sq(2.0 * a * x + b) + (4.0 * a * c - Sq(b))
  {
    var y := 2.0 * a * x + b;
    assert Sq(y) == y * y;
    assert Sq(x) == x * x;
    assert Sq(b) == b * b;
  }

  /** A quadratic with a positive leading coefficient and a negative
      discriminant has no real root: it is positive everywhere. */
  lemma QuadraticPositive(a: real, b: real, c: real, x: real)
    requires a > 0.0 && Discriminant(a, b, c) < 0.0
    ensures a * Sq(x) + b * x + c > 0.0
  {
    CompleteSquare(a, b, c, x);
    PositiveFactor(4.0 * a, a * Sq(x) + b * x + c);
  }

  /** (-b + r) / 2a is a root of a x^2 + b x + c when r^2 is the
      discriminant (r of either sign gives either root). */
  lemma QuadraticAtRoot(a: real, b: real, c: real, r: real, x: real)
    requires a > 0.0 && Sq(r) == Discriminant(a, b, c) && x == (-b + r) / (2.0 * a)
    ensures a * Sq(x) + b * x + c == 0.0
  {
    assert 2.0 * a * x + b == r;
    SqOfEqual(2.0 * a * x + b, r);
    CompleteSquare(a, b, c, x);
    ZeroFactor(4.0 * a, a * Sq(x) + b * x + c);
  }

  /** Outside its two roots (-b - r) / 2a and (-b + r) / 2a, with r >= 0 and
      r^2 the discriminant, a x^2 + b x + c is not negative. */
  lemma QuadraticOutsideRoots(a: real, b: real, c: real, r: real, x: real)
    requires a > 0.0 && r >= 0.0 && Sq(r) == Discriminant(a, b, c)
    requires x <= (-b - r) / (2.0 * a) || (-b + r) / (2.0 * a) <= x
    ensures a * Sq(x) + b * x + c >= 0.0
  {
    OutsideRootsBound(a, b, r, x);
    CompleteSquare(a, b, c, x);
    SquareAboveDiscriminant(4.0 * a, a * Sq(x) + b * x + c, Sq(2.0 * a * x + b), Discriminant(a, b, c));
  }

  lemma SquareAboveDiscriminant(a4: real, q: real, sy: real, disc: real)
    requires a4 > 0.0 && a4 * q == sy - disc && disc <= sy
    ensures q >= 0.0
  {
    NonNegativeFactor(a4, q);
  }

  /** Outside the roots, |2 a x + b| is at least r. */
  lemma OutsideRootsBound(a: real, b: real, r: real, x: real)
    requires a > 0.0 && r >= 0.0
    requires x <= (-b - r) / (2.0 * a) || (-b + r) / (2.0 * a) <= x
    ensures Sq(r) <= Sq(2.0 * a * x + b)
  {
    var d := 2.0 * a;
    if x <= (-b - r) / d {
      ScaledBelow(x, (-b - r) / d, d, -b - r);
      BelowNegated(r, d * x + b);
    } else {
      ScaledAbove((-b + r) / d, x, d, -b + r);
      SqMonotone(r, d * x + b);
    }
  }

  lemma BelowNegated(r: real, y: real)
    requires 0.0 <= r <= -y
    ensures Sq(r) <= Sq(y)
  {
    SqMonotone(r, -y);
    SqNegate(y);
  }

  lemma ScaledAbove(q: real, x: real, d: real, n: real)
    requires d > 0.0 && q == n / d && q <= x
    ensures n <= d * x
  {
    assert q * d == n;
    ProductMonotoneRight(q, x, d);
  }

  lemma ScaledBelow(x: real, q: real, d: real, n: real)
    requires d > 0.0 && q == n / d && x <= q
    ensures d * x <= n
  {
    assert q * d == n;
    ProductMonotoneRight(x, q, d);
  }

  lemma ProductMonotoneRight(a: real, b: real, c: real)
    requires a <= b && c > 0.0
    ensures a * c <= b * c
  {
  }

  lemma ZeroFactor(a: real, q: real)
    requires a > 0.0 && a * q == 0.0
    ensures q == 0.0
  {
  }

  lemma NonNegativeFactor(a: real, q: real)
    requires a > 0.0 && a * q >= 0.0
    ensures q >= 0.0
  {
  }

  lemma SqOfEqual(a: real, b: real)
    requires a == b
    ensures Sq(a) == Sq(b)
  {
  }

  lemma PositiveFactor(a: real, q: real)
    requires a > 0.0 && a * q > 0.0
    ensures q > 0.0
  {
  }

  /** The squared distance from (px, py) to the point (x, g x + yi), less r^2,
      expanded in powers of x. */
  lemma LineCircleExpansion(x: real, px: real, py: real, g: real, yi: real, r: real)
    ensures Sq(x - px) + Sq(g * x + yi - py) - Sq(r) ==
            (1.0 + Sq(g)) * Sq(x) + (2.0 * g * (yi - py) - 2.0 * px) * x
            + (Sq(px) + Sq(py) - 2.0 * yi * py + Sq(yi) - Sq(r))
  {
    SqOfSum(x, -px);
    SqNegate(px);
    SqOfSum(g * x, yi - py);
    SqProduct(g, x);
    SqOfSum(yi, -py);
    SqNegate(py);
    Rearrange(g, x, yi - py);
  }

  /** (u + v)^2 == u^2 + 2 u v + v^2. */
  lemma SqOfSum(u: real, v: real)
    ensures Sq(u + v) == Sq(u) + 2.0 * u * v + Sq(v)
  {
    assert Sq(u + v) == (u + v) * (u + v);
    assert Sq(u) == u * u && Sq(v) == v * v;
  }

  lemma Rearrange(g: real, x: real, d: real)
    ensures 2.0 * (g * x) * d == 2.0 * g * d * x
  {
  }

  lemma QuotientMonotone(a: real, b: real, d: real)
    requires a <= b && d > 0.0
    ensures a / d <= b / d
  {
  }
}
