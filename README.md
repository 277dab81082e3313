# SPH particle interpolation (sarracen `interpolate.py`)

This project models the interpolation engine of sarracen, `sarracen/interpolate.py`, in Dafny. The engine turns smoothed-particle-hydrodynamics particles into pixels. It has two entry points:

- **`interpolate2D`** validates the grid parameters and allocates a zeroed `pixcounty x pixcountx` image. Every particle with a positive weight `m / (rho h^2)` is then splatted: the model rounds and clamps the particle's bounding box, precomputes the squared x offsets `dx2i`, and adds `term * w(q2)` to every cell of the box in nested loops.
- **`interpolate2DCross`** validates the line and the pixel count, then computes a one-dimensional profile of `pixcount` pixels along the segment from `(x1, y1)` to `(x2, y2)`:
  - it drops particles that fail the weight filter `term / target > 0`, and particles whose support circle misses the line (discriminant `det < 0`);
  - it clips the intersection chord to the segment's x range, converts both ends to distances from `(x1, y1)` and then to pixel indices, clamped to `[0, pixcount]`;
  - it adds each remaining particle's deposit into its slice of the output.

## Modules

- `Numerics`: the scalar helpers used by the source, computed exactly over `real`:
  - squares;
  - `np.rint`, round half to even;
  - pandas `clip` with scalar bounds;
  - `np.isclose` with its default tolerances, which is not symmetric;
  - the discriminant, and the quadratic facts about it.
- `LineGeometry`: the squared distance from the first endpoint to a point of the line, and the fact that it grows with the distance in x.
- `Kernels`: the kernel, made of `ndims`, `radkernel` and an uninterpreted weight `w`. Both entry points call `w` on `sqrt(q2)` only, so `w` takes `q2` directly. There is also the compact-support contract some lemmas assume.
- `Outcomes`: one error per exception the source raises, plus `Option` and `Result`.
- `Particles`: a particle record `(x, y, m, rho, h, target)`, together with the weight, the term and `hi21 = (1/h)^2`.
- `Accumulation`: sums of per-particle contributions over a particle table. It covers order independence, concatenation, masking (`Where`, the labels a boolean mask keeps) and label selection (`Pick`).
- `Grid2D`: `interpolate2D`.
  - It is imperative over an `array2<real>`, with one method per loop of the source.
  - `ImageAt` is the specification: the value of a pixel is the sum over all particles of their contributions.
- `CrossSection`: `interpolate2DCross`.
  - The column-wise filters and index computations become functions of one particle.
  - The loop over the surviving particles and the slice `+=` become methods over an `array<real>`.
  - `ProfileAt` is the specification of each output pixel.

The source takes the particle table in row order, and the model assumes the default labels `0 .. n-1`. A label is then a row's position in the whole table. A particle table is a `seq<Particle>`.

Two places where the wording in the source and its checks differ. The model follows the checks in both:

- **Skipped particles in the grid path.** The comment at line 58 says particles with zero weight are skipped. The test at line 59 skips every `weight <= 0`, so negative weights are skipped too, while a particle with negative mass and negative density has a positive weight and is splatted. `Particles.WeightSign` states exactly when the weight is positive.
- **Zero-length lines.** The message at line 137 speaks of a zero-length section. The test at line 136 rejects endpoints that are `np.isclose` in both coordinates, which is the asymmetric closeness test, so nearby but distinct endpoints are rejected too.

## Model

| member | source | states |
|---|---|---|
| `Grid2D.Check2D` | sarracen/interpolate.py:38-48 | The grid parameters are accepted exactly when both pixel widths and both pixel counts are positive and the kernel is two-dimensional. Each error is reported exactly when the earlier checks pass and its own check fails, in the source's order. |
| `Grid2D.Interpolate2D` | sarracen/interpolate.py:10-107 | Fails exactly when validation fails, with the validation's error. Otherwise returns a fresh `pixcounty x pixcountx` image. Each pixel equals the sum, over every particle of the table, of that particle's contribution. |
| `Grid2D.AddParticle` | sarracen/interpolate.py:53-105 | One pass of the particle loop. It adds the particle's `Contribution` to every pixel and changes nothing else. A particle with weight `<= 0` contributes zero to every pixel. |
| `Grid2D.AxisRange` | sarracen/interpolate.py:72-85 | After rounding and clamping, the range along one axis lies within `[0, count]`. Every pixel whose centre is strictly inside the particle's support is in the range, and every pixel in the range has its centre within the support. |
| `Grid2D.ParticleBox` | sarracen/interpolate.py:62-85 | The clamped box lies inside the image: `0 <= ipixmin`, `ipixmax <= pixcountx`, `0 <= jpixmin`, `jpixmax <= pixcounty`. |
| `Grid2D.ClampedBox` | sarracen/interpolate.py:62-85 | The imperative rounding and clamping (four reassignments) produces exactly the box `ParticleBox` describes. |
| `Grid2D.FillDx2` | sarracen/interpolate.py:87-90 | Returns a fresh array of length `pixcountx`. It holds `(xmin + (ipix + 0.5) pixwidthx - x)^2 * hi21` at every column of the box and zero at every other column. |
| `Grid2D.SplatBox` | sarracen/interpolate.py:92-105 | Every pixel of the box grows by exactly `term * w(dx2i[ipix] + dy2)`. Every pixel outside the box keeps its value. |
| `Grid2D.SplatRow` | sarracen/interpolate.py:99-105 | Every pixel of row `jpix` within the column range grows by `term * w(q2)`. Every other pixel keeps its value. |
| `Grid2D.BoxLosesNothing` | sarracen/interpolate.py:62-105 | For a kernel that vanishes outside its support, a splatted particle would deposit zero at every image pixel outside its clamped box. |
| `Grid2D.ImageIsUnclippedSum` | sarracen/interpolate.py:53-107 | For a compactly supported kernel, every image pixel equals the sum of the unclipped kernel contributions of all splatted particles. The bounding box changes nothing. |
| `Grid2D.ImageIndependentOfOrder` | sarracen/interpolate.py:53-107 | Any permutation of the particle table gives the same image (exact arithmetic). |
| `Grid2D.ImageSuperposition` | sarracen/interpolate.py:53-107 | The image of two concatenated tables is the sum of their images. |
| `Grid2D.SkippedParticleChangesNothing` | sarracen/interpolate.py:56-60 | Appending a particle that is not splatted leaves every pixel as it was. |
| `Grid2D.OnlySplattedParticlesCount` | sarracen/interpolate.py:56-60 | Dropping every particle that is not splatted from the table leaves every pixel as it was. |
| `Particles.WeightSign` | sarracen/interpolate.py:56-60 | The weight `m / (rho h^2)` is positive exactly when `m` and `rho` are both positive or both negative. It is zero exactly when `m` is zero. |
| `Particles.Hi21Scales` | sarracen/interpolate.py:65-66 | `hi21 * h^2 == 1`. |
| `Numerics.Rint` | sarracen/interpolate.py:72-75 | The result is an integer within 1/2 of its argument. An exact half is rounded to the even neighbour. |
| `Numerics.RintMonotone` | sarracen/interpolate.py:189-190 | Rounding never reverses the order of two values. |
| `Numerics.Clip` | sarracen/interpolate.py:179-180 | The result lies between the two bounds, which are taken in either order. A value between the bounds is unchanged; a value outside is moved to the nearer bound. |
| `Numerics.QuadraticPositive` | sarracen/interpolate.py:163-173 | A quadratic with a positive leading coefficient and a negative discriminant is positive everywhere. |
| `CrossSection.CheckCross` | sarracen/interpolate.py:136-143 | The cross-section parameters are accepted exactly when the endpoints are not close in both coordinates, `pixcount > 0` and the kernel is two-dimensional. Each error is reported exactly when its check is the first to fail. |
| `CrossSection.Gradient` | sarracen/interpolate.py:147-150 | The gradient is 0 when `x2` is close to `x1`. Otherwise it is the slope `(y2 - y1) / (x2 - x1)`: gradient times `(x2 - x1)` is `y2 - y1`. |
| `CrossSection.LineThroughEndpoints` | sarracen/interpolate.py:147-151 | With `yint = y2 - gradient x2`, the line passes through `(x2, y2)`. It also passes through `(x1, y1)` unless the endpoints' x are close; then it is the horizontal through `(x2, y2)`. |
| `CrossSection.ValidatedPixWidthPositive` | sarracen/interpolate.py:136-155 | After validation, with a square root that maps positives to positives, one pixel has positive length along the line. |
| `CrossSection.WeightFilterMeaning` | sarracen/interpolate.py:158-160 | `term / target > 0` holds exactly when the target is non-zero and the weight is positive. A zero target gives `0/0` and fails the filter. |
| `CrossSection.XStart` | sarracen/interpolate.py:179 | The entry point of the chord lies within the segment's x range, whichever endpoint has the larger x. When the smaller root `(-bb - sqrt(det)) / 2aa` already lies in that range, it is the entry point unchanged. |
| `CrossSection.XEnd` | sarracen/interpolate.py:180 | The exit point of the chord lies within the segment's x range. When the larger root `(-bb + sqrt(det)) / 2aa` already lies in that range, it is the exit point unchanged. |
| `Numerics.QuadraticAtRoot` | sarracen/interpolate.py:171-180 | With a positive leading coefficient and `r^2` equal to the discriminant, `(-b + r) / 2a` is a root of `a x^2 + b x + c`. |
| `Numerics.QuadraticOutsideRoots` | sarracen/interpolate.py:171-180 | With a positive leading coefficient and `r >= 0` the root of the discriminant, the quadratic is not negative at or outside its two roots. |
| `CrossSection.ChordEndsOnCircle` | sarracen/interpolate.py:162-180 | With an exact square root and `det >= 0`, both unclipped roots are points of the line at distance exactly `radkernel h` from the particle. |
| `CrossSection.OutsideChordMissesCircle` | sarracen/interpolate.py:162-180 | With an exact square root and `det >= 0`, every point of the line whose x is at or outside the two roots is at least `radkernel h` from the particle. |
| `CrossSection.OutsideChordLosesNothing` | sarracen/interpolate.py:177-205 | For a compactly supported kernel and an exact square root, a pixel whose centre's x is at or outside the two roots receives nothing from the particle. |
| `CrossSection.PixelCentreInSection` | sarracen/interpolate.py:196 | The centre `x1 + (n + 0.5) xpixwidth` of every output pixel `0 <= n < pixcount` lies between `x1` and `x2`. |
| `CrossSection.ClippedChordLosesNothing` | sarracen/interpolate.py:177-205 | For a compactly supported kernel and an exact square root, an output pixel whose centre lies outside the clipped chord `[xstart, xend]` receives nothing from the particle: clipping the chord drops no contribution. |
| `CrossSection.ChordOrdered` | sarracen/interpolate.py:177-180 | With a monotone square root and `det >= 0`, the entry point's x is at most the exit point's x. |
| `LineGeometry.LineDistanceMonotone` | sarracen/interpolate.py:184-185 | On either side of `x1`, the squared distance from `(x1, y1)` to the point of the line above `x` grows with the distance in x from `x1`. This holds when the line has no slope or passes through `(x1, y1)`. |
| `CrossSection.DistanceMonotone` | sarracen/interpolate.py:184-185 | `rstart`/`rend` as computed grow with the distance in x from `x1`, on either side of `x1`. |
| `CrossSection.PixelIndex` | sarracen/interpolate.py:189-190 | The rounded, clipped index lies in `[0, pixcount]` and equals `rint(v)` when that is in range. Pixels with centres beyond `v` are at or after the index; pixels before the index have centres at or before `v`. |
| `CrossSection.PixelIndexMonotone` | sarracen/interpolate.py:189-190 | Rounding and clipping keep the order of two positions. |
| `CrossSection.SpanAsWritten` | sarracen/interpolate.py:184-190 | As written, `ipixmin` comes from the entry point and `ipixmax` from the exit point, both in `[0, pixcount]`. |
| `CrossSection.Span` | sarracen/interpolate.py:184-190 | The corrected pixel range runs from the nearer chord end to the farther, with `0 <= lo <= hi <= pixcount`. It contains every pixel whose centre lies strictly inside the chord. Every pixel it contains has its centre within the chord. |
| `CrossSection.ReversedSpanIsEmpty` | sarracen/interpolate.py:177-190 | As written, a line drawn from right to left (`x2 < x1`) gives every particle that survives the determinant filter an empty range: `ipixmax <= ipixmin`. |
| `CrossSection.ForwardSpanUnchanged` | sarracen/interpolate.py:177-190 | For a line drawn from left to right (`x1 <= x2`), the corrected range equals the range the source computes. |
| `CrossSection.VerticalSectionSpansAreEmpty` | sarracen/interpolate.py:147-150 | When `x1 == x2`, every particle's range is empty. |
| `CrossSection.CircleQuadratic` | sarracen/interpolate.py:162-169 | The squared distance from the particle to the point of the line at `x`, less `(radkernel h)^2`, equals `aa x^2 + bb x + cc` with the source's coefficients. |
| `CrossSection.NegativeDetMissesCircle` | sarracen/interpolate.py:162-173 | When `det < 0`, every point of the line is farther from the particle than `radkernel h`. |
| `CrossSection.DetFilterLosesNothing` | sarracen/interpolate.py:171-173 | For a compactly supported kernel, a particle the determinant filter removes would add zero to every output pixel. |
| `CrossSection.Contributors` | sarracen/interpolate.py:158-173 | The labels the loop should visit are in range and name particles that pass both filters. Every particle that passes both filters is among them. The labels come in strictly increasing order, as `nonzero()` returns them. |
| `CrossSection.Interpolate2DCross` | sarracen/interpolate.py:110-207 | Fails exactly when validation fails, with its error. Otherwise returns a fresh output of length `pixcount` in which every pixel equals the sum over all particles of their contribution, using the corrected label loop and range. |
| `CrossSection.AddContributors` | sarracen/interpolate.py:194-205 | Visiting the given contributor labels in order, each output pixel grows by the sum of the contributions of those particles. |
| `CrossSection.AddContributor` | sarracen/interpolate.py:194-205 | One loop pass adds the particle's contribution to every pixel. Pixels outside its range keep their value. |
| `CrossSection.AddSpan` | sarracen/interpolate.py:196-205 | `output[lo:hi] += wab * term`: every pixel in `[lo, hi)` grows by `w(q2) * term` at that pixel's centre. Every other pixel keeps its value. |
| `CrossSection.ProfileIndependentOfOrder` | sarracen/interpolate.py:194-205 | Any permutation of the particle table gives the same profile (exact arithmetic). |
| `CrossSection.ProfileSuperposition` | sarracen/interpolate.py:194-205 | The profile of two concatenated tables is the sum of their profiles. |
| `CrossSection.FilteredParticleChangesNothing` | sarracen/interpolate.py:158-173 | Appending a particle that either filter removes leaves every pixel as it was. |
| `CrossSection.OnlyContributorsCount` | sarracen/interpolate.py:158-173 | The profile of the contributors alone equals the profile of the whole table. |
| `CrossSection.VerticalSectionIsBlank` | sarracen/interpolate.py:147-150 | A line with `x1 == x2` has an all-zero profile. |
| `CrossSection.ReversedSectionIsBlankAsWritten` | sarracen/interpolate.py:177-205 | As written, a line drawn from right to left produces an all-zero profile, whatever the particles. |
| `CrossSection.ForwardSectionAgreesAsWritten` | sarracen/interpolate.py:177-205 | For a line drawn from left to right, the corrected profile equals the profile as written. |
| `CrossSection.SurvivorLabels` | sarracen/interpolate.py:158-173 | The labels of the rows selected by `filter_det` within the weight survivors are exactly the contributors. |
| `CrossSection.AsWrittenVisitsContributorsOrRaises` | sarracen/interpolate.py:194 | The loop header as written either visits exactly the contributors or raises `KeyError`. It succeeds precisely when the positions `nonzero()` returns coincide with the contributors' labels. |
| `CrossSection.AsWrittenAgreesWithoutWeightFiltering` | sarracen/interpolate.py:158-160 | When no particle fails the weight filter, the loop as written visits exactly the contributors. |
| `CrossSection.AsWrittenRaisesKeyError` | sarracen/interpolate.py:194 | On the two-particle table described under Findings, the loop as written raises `KeyError`. |

## Left out

- Floating point: every quantity is an exact `real`. Rounding error, overflow, NaN and infinity are not modelled, and neither is bit-identical determinism.
- Division hazards: particles must have `h > 0` and `rho != 0` (`Admissible`), so that `m / (rho h^2)` and `1 / h` are defined. The model excludes the other inputs rather than modelling infinities and NaN:
  - `h == 0` makes the weight infinite at line 56 (positive when `m / rho > 0`), and the source keeps such a particle;
  - `h < 0` in the grid path makes `radkern` negative, so the rounded lower end of the box exceeds the upper end and the box is empty (lines 72-85);
  - `h < 0` in the cross-section path enters only through `h^2`, so the particle acts as if its smoothing length were `|h|`;
  - `rho == 0` makes the weight `+inf`, `-inf` or NaN (`0/0`). The grid path skips only `weight <= 0` (line 59), so it keeps both `+inf` and NaN. The cross filter `term / target > 0` (line 160) keeps a quotient of `+inf` and drops NaN.
- Square roots are parameters:
  - `sqrt` is a function argument of the cross-section path;
  - only positivity (`SqrtPositive`) is assumed for validation;
  - a monotone, non-negative root (`SqrtMonotone`) is assumed only where the direction of the line matters;
  - an exact root (`SqrtExact`: non-negative, and its square is its argument) is assumed only for the lemmas that place the chord's ends on the support circle;
  - in the grid path the root is folded into the kernel weight.
- The concrete kernel formulas: `BaseKernel` is not part of this model. `w` is uninterpreted, and the locality lemmas assume only `CompactSupport`.
- pandas/SarracenDataFrame plumbing: `iterrows`, column lookup by name, Series alignment, `np.arange`, and freeing temporaries by assigning `None`. Row labels are the default `0 .. n-1`.
- Numeric-quality claims: approximate conservation and mirror symmetry of profiles depend on floats and a concrete kernel; the expected pixel values of a single-particle image depend on the kernel's values, and `BaseKernel` is not part of this model.
- `CrossSection.OutsideChordLosesNothing`: is stated for pixel centres by their x coordinate. It is not connected to the rounded pixel range `Span`; `Span` is related to the clipped chord only.
- `CrossSection.Interpolate2DCross`: models the corrected loop. It visits contributors by label and uses the corrected range. The source as written is modelled separately, by `LoopLabelsAsWritten`, `SpanAsWritten` and `ProfileAsWritten`.

## Findings

| source | as written | input that shows it | evidently intended | confidence | as-written member | corrected member |
|---|---|---|---|---|---|---|
| sarracen/interpolate.py:194 | The loop iterates over `filter_det.to_numpy().nonzero()[0]`. These are POSITIONS among the rows that passed the weight filter, yet `ipixmin[i]`, `term[i]` and `data[...][i]` look them up as row LABELS. Whenever a row fails the weight filter before a contributing row, a position is not a label of `ipixmin` and the loop raises `KeyError`. | Two particles. Particle 0 has target 0. Particle 1 is at `(0, 0)` with `m = rho = h = target = 1`. The line runs from `(-1, 0)` to `(1, 0)`, with `pixcount = 4` and `radkernel = 1`. The only contributor has label 1 but position 0. | Visit the contributing particles by label. | not executed | `CrossSection.AsWrittenRaisesKeyError` | `CrossSection.AddContributors` |
| sarracen/interpolate.py:179-190 | `ipixmin` is taken from the entry point `xstart` and `ipixmax` from the exit point `xend`. When the line is drawn from right to left (`x2 < x1`), the entry point has the smaller x and is the FARTHER end from `(x1, y1)`, so `ipixmax <= ipixmin`. Every slice `output[ipixmin:ipixmax]` is then empty, and the profile is all zero whatever the particles. | Reversed endpoints `(1, 0)` to `(-1, 0)`, with any particle whose support meets the line, for example a unit particle at the origin. | The range runs from the nearer end of the chord to the farther end, whatever the direction of the line. | not executed | `CrossSection.ReversedSectionIsBlankAsWritten` | `CrossSection.Span` |
