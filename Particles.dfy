/** One row of the particle table, resolved to the two chosen axes and the
    target column, and the per-particle quantities both entry points derive
    from it. */
module Particles {
  import opened Numerics

  datatype Particle = Particle(x: real, y: real, m: real, rho: real, h: real, target: real)

  /** The particles the model accepts: a positive smoothing length and a
      non-zero density, so that m / (rho * h ** 2) and 1 / h are defined. */
  predicate Admissible(p: Particle)
  {
    p.h > 0.0 && p.rho != 0.0
  }

  /** The dimensionless weight m / (rho * h ** 2). */
  function Weight(p: Particle): real
    requires Admissible(p)
  {
    p.m / (p.rho * Sq(p.h))
  }

  /** The weight is positive exactly when mass and density have the same
      strict sign, and zero exactly when the mass is zero. */
  lemma WeightSign(p: Particle)
    requires Admissible(p)
    ensures Weight(p) > 0.0 <==> (p.m > 0.0 && p.rho > 0.0) || (p.m < 0.0 && p.rho < 0.0)
    ensures Weight(p) == 0.0 <==> p.m == 0.0
  {
    QuotientSign(p.m, p.rho, Sq(p.h));
  }

  /** The sign of m / (rho * s) for a positive s. */
  lemma QuotientSign(m: real, rho: real, s: real)
    requires s > 0.0 && rho != 0.0
    ensures m / (rho * s) > 0.0 <==> (m > 0.0 && rho > 0.0) || (m < 0.0 && rho < 0.0)
    ensures m / (rho * s) == 0.0 <==> m == 0.0
  {
    assert (m / (rho * s)) * (rho * s) == m;
  }

  /** (t * m) / d / t == m / d: dividing a product by one of its factors. */
  lemma CancelFactor(t: real, m: real, d: real)
    requires t != 0.0 && d != 0.0
    ensures ((t * m) / d) / t == m / d
  {
    assert (m / d) * d == m;
    assert ((t * m) / d) * d == t * m;
  }

  /** The grid path's per-particle factor, weight times target value. */
  function Term(p: Particle): real
    requires Admissible(p)
  {
    Weight(p) * p.target
  }

  /** The inverse-square smoothing length (1 / h) ** 2. */
  function Hi21(p: Particle): real
    requires Admissible(p)
  {
    Sq(1.0 / p.h)
  }

  /** Scaling by Hi21 is dividing by h ** 2. */
  lemma Hi21Scales(p: Particle)
    requires Admissible(p)
    ensures Hi21(p) * Sq(p.h) == 1.0
  {
    InverseProduct(p.h, Same(p.h));
  }

  lemma InverseProduct(a: real, b: real)
    requires a != 0.0 && b != 0.0
    ensures ((1.0 / a) * (1.0 / b)) * (a * b) == 1.0
  {
    assert (1.0 / a) * a == 1.0;
    assert (1.0 / b) * b == 1.0;
  }
}
