/** Distances from the first endpoint of a cross-section line to points
    further along it. */
module LineGeometry {
  import opened Numerics

  /** The squared distance from (x1, y1) to the point of the line
      y = g x + yi above x. */
  function PointDistance(g: real, yi: real, x1: real, y1: real, x: real): (d: real)
    ensures d >= 0.0
  {
    Sq(x - x1) + Sq(g * x + yi - y1)
  }

  /** Along the line y = g x + yi, on either side of x1, the squared
      distance from (x1, y1) grows with the distance in x from x1, provided
      the line has no slope or passes through (x1, y1). */
  lemma LineDistanceMonotone(g: real, yi: real, x1: real, y1: real, x: real, y: real)
    requires x1 <= x <= y || y <= x <= x1
    requires g == 0.0 || g * x1 + yi - y1 == 0.0
    ensures PointDistance(g, yi, x1, y1, x) <= PointDistance(g, yi, x1, y1, y)
  {
    if x1 <= x <= y {
      SqMonotone(x - x1, y - x1);
    } else {
      SqMonotone(x1 - x, x1 - y);
      SqOfDifference(x, x1);
      SqOfDifference(y, x1);
    }
    HeightMonotone(g, yi, x1, y1, x, y);
  }

  /** Where the offset in x grows, so does the offset in y. */
  lemma HeightMonotone(g: real, yi: real, x1: real, y1: real, x: real, y: real)
    requires Sq(x - x1) <= Sq(y - x1)
    requires g == 0.0 || g * x1 + yi - y1 == 0.0
    ensures Sq(g * x + yi - y1) <= Sq(g * y + yi - y1)
  {
    if g == 0.0 {
      Flat(g, yi, y1, x);
      Flat(g, yi, y1, y);
    } else {
      ThroughStart(g, yi, x1, y1, x);
      ThroughStart(g, yi, x1, y1, y);
      ProductMonotone(Sq(g), Sq(g), Sq(x - x1), Sq(y - x1));
    }
  }

  /** On a line without slope the offset in y does not depend on x. */
  lemma Flat(g: real, yi: real, y1: real, x: real)
    requires g == 0.0
    ensures Sq(g * x + yi - y1) == Sq(yi - y1)
  {
    assert g * x + yi - y1 == yi - y1;
  }

  /** On a line through (x1, y1) the offset in y is g times the offset in x. */
  lemma ThroughStart(g: real, yi: real, x1: real, y1: real, x: real)
    requires g * x1 + yi - y1 == 0.0
    ensures Sq(g * x + yi - y1) == Sq(g) * Sq(x - x1)
  {
    DistributeDifference(g, x, x1);
    SqOfEqual(g * x + yi - y1, g * (x - x1));
    SqProduct(g, x - x1);
  }

  /** (a - b)^2 == (b - a)^2. */
  lemma SqOfDifference(a: real, b: real)
    ensures Sq(a - b) == Sq(b - a)
  {
    SqNegate(b - a);
    SqOfEqual(a - b, -(b - a));
  }

  lemma DistributeDifference(a: real, b: real, c: real)
    ensures a * (b - c) == a * b - a * c
  {
  }
}
