/** The smoothing kernel as the interpolation engine sees it: a dimensionality,
    a compact-support multiplier and a weight function. The concrete kernel
    formulas are not part of this model. */
module Kernels {
  import opened Numerics

  /** `w(q2)` is the kernel's weight at the dimensionless distance sqrt(q2):
      both entry points only ever evaluate the kernel at the root of a squared
      distance, so the square root is folded into `w`. */
  datatype Kernel = Kernel(ndims: int, radkernel: real, w: real -> real)

  /** The kernel contract: a positive support radius, and a weight that
      vanishes from the edge of the support outwards. */
  ghost predicate CompactSupport(k: Kernel)
  {
    && k.radkernel > 0.0
    && forall q2 :: q2 >= Sq(k.radkernel) ==> k.w(q2) == 0.0
  }
}
