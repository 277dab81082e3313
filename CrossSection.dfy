/** interpolate2DCross: a one-dimensional profile of pixcount pixels along the
    segment from (x1, y1) to (x2, y2). The filters and per-particle pixel
    ranges are computed column-wise for all particles at once; the loop then
    adds each remaining particle's kernel-weighted term into its range. */
module CrossSection {
  import opened Numerics
  import opened LineGeometry
  import opened Kernels
  import opened Outcomes
  import opened Particles
  import opened Accumulation

  datatype Section = Section(x1: real, y1: real, x2: real, y2: real, pixcount: int)

  /** The parameter validation, in the order the checks are made. */
  function CheckCross(s: Section, k: Kernel): (e: Option<Error>)
    ensures e == None <==> !(IsClose(s.y2, s.y1) && IsClose(s.x2, s.x1)) && s.pixcount > 0 && k.ndims == 2
    ensures e == Some(ZeroLengthCrossSection) <==> IsClose(s.y2, s.y1) && IsClose(s.x2, s.x1)
    ensures e == Some(PixCountNotPositive) <==> !(IsClose(s.y2, s.y1) && IsClose(s.x2, s.x1)) && s.pixcount <= 0
    ensures e == Some(KernelNotTwoDimensional) <==>
      !(IsClose(s.y2, s.y1) && IsClose(s.x2, s.x1)) && s.pixcount > 0 && k.ndims != 2
  {
    if IsClose(s.y2, s.y1) && IsClose(s.x2, s.x1) then Some(ZeroLengthCrossSection)
    else if s.pixcount <= 0 then Some(PixCountNotPositive)
    else if k.ndims != 2 then Some(KernelNotTwoDimensional)
    else None
  }

  /** The slope of the line, taken as 0 when the endpoints have close x. */
  function Gradient(s: Section): (gr: real)
    ensures IsClose(s.x2, s.x1) ==> gr == 0.0
    ensures !IsClose(s.x2, s.x1) ==> gr * (s.x2 - s.x1) == s.y2 - s.y1
  {
    if IsClose(s.x2, s.x1) then 0.0
    else
      NotCloseDiffer(s.x2, s.x1);
      assert (s.y2 - s.y1) / (s.x2 - s.x1) * (s.x2 - s.x1) == s.y2 - s.y1;
      (s.y2 - s.y1) / (s.x2 - s.x1)
  }

  /** The intercept at x = 0 of the line through (x2, y2) with that slope. */
  function YIntercept(s: Section): real
  {
    s.y2 - Gradient(s) * s.x2
  }

  /** The line y = Gradient * x + YIntercept passes through the second
      endpoint, and through the first one too unless the endpoints have close
      x and different y (then the line is the horizontal through (x2, y2)). */
  lemma LineThroughEndpoints(s: Section)
    ensures Gradient(s) * s.x2 + YIntercept(s) == s.y2
    ensures !IsClose(s.x2, s.x1) ==> Gradient(s) * s.x1 + YIntercept(s) == s.y1
    ensures IsClose(s.x2, s.x1) ==> Gradient(s) * s.x1 + YIntercept(s) == s.y2
  {
    var gr := Gradient(s);
    DistributeDifference(gr, s.x2, s.x1);
  }

  /** The length of one output pixel along the line, and its extent in x. */
  function PixWidth(s: Section, sqrt: real -> real): real
    requires s.pixcount > 0
  {
    sqrt(Sq(s.x2 - s.x1) + Sq(s.y2 - s.y1)) / s.pixcount as real
  }

  function XPixWidth(s: Section): real
    requires s.pixcount > 0
  {
    (s.x2 - s.x1) / s.pixcount as real
  }

  /** A section that passes validation has pixels of positive length. */
  lemma ValidatedPixWidthPositive(s: Section, k: Kernel, sqrt: real -> real)
    requires CheckCross(s, k).None? && SqrtPositive(sqrt)
    ensures PixWidth(s, sqrt) > 0.0
  {
    if IsClose(s.x2, s.x1) {
      NotCloseDiffer(s.y2, s.y1);
    } else {
      NotCloseDiffer(s.x2, s.x1);
    }
    assert Sq(s.x2 - s.x1) + Sq(s.y2 - s.y1) > 0.0;
  }

  /** The column-wise term target * m / (rho * h ** 2). */
  function CrossTerm(p: Particle): real
    requires Admissible(p)
  {
    p.target * p.m / (p.rho * Sq(p.h))
  }

  /** The weight filter term / target > 0. With a zero target the quotient
      is 0 / 0, a NaN, and the comparison is false. */
  predicate PassesWeight(p: Particle)
  {
    Admissible(p) && p.target != 0.0 && CrossTerm(p) / p.target > 0.0
  }

  /** The weight filter keeps exactly the particles with a non-zero target
      and a positive weight. */
  lemma WeightFilterMeaning(p: Particle)
    requires Admissible(p)
    ensures PassesWeight(p) <==> p.target != 0.0 && Weight(p) > 0.0
  {
    if p.target != 0.0 {
      CancelFactor(p.target, p.m, p.rho * Sq(p.h));
      assert CrossTerm(p) / p.target == Weight(p);
    }
  }

  /** The coefficients of a x^2 + b x + c = 0, whose roots are where the line
      crosses the circle of radius radkernel * h around the particle. */
  function Aa(s: Section): (a: real)
    ensures a >= 1.0
  {
    1.0 + Sq(Gradient(s))
  }

  function Bb(s: Section, p: Particle): real
  {
    2.0 * Gradient(s) * (YIntercept(s) - p.y) - 2.0 * p.x
  }

  function Cc(s: Section, k: Kernel, p: Particle): real
  {
    Sq(p.x) + Sq(p.y) - 2.0 * YIntercept(s) * p.y + Sq(YIntercept(s)) - Sq(k.radkernel * p.h)
  }

  function Det(s: Section, k: Kernel, p: Particle): real
  {
    Discriminant(Aa(s), Bb(s, p), Cc(s, k, p))
  }

  predicate DetNonNegative(s: Section, k: Kernel, p: Particle)
  {
    Det(s, k, p) >= 0.0
  }

  /** A particle the loop visits: it passes the weight filter and its
      smoothing circle meets the line. */
  predicate Contributes(s: Section, k: Kernel, p: Particle)
  {
    PassesWeight(p) && DetNonNegative(s, k, p)
  }

  /** The x coordinates where the line enters and leaves the circle, clipped
      to the x range of the segment. */
  function XStart(s: Section, k: Kernel, p: Particle, sqrt: real -> real): (xs: real)
    ensures Min(s.x1, s.x2) <= xs <= Max(s.x1, s.x2)
    ensures Min(s.x1, s.x2) <= EntryRoot(s, k, p, sqrt) <= Max(s.x1, s.x2) ==> xs == EntryRoot(s, k, p, sqrt)
  {
    Clip(EntryRoot(s, k, p, sqrt), s.x1, s.x2)
  }

  function XEnd(s: Section, k: Kernel, p: Particle, sqrt: real -> real): (xe: real)
    ensures Min(s.x1, s.x2) <= xe <= Max(s.x1, s.x2)
    ensures Min(s.x1, s.x2) <= ExitRoot(s, k, p, sqrt) <= Max(s.x1, s.x2) ==> xe == ExitRoot(s, k, p, sqrt)
  {
    Clip(ExitRoot(s, k, p, sqrt), s.x1, s.x2)
  }

  /** The two roots (-bb -+ sqrt(det)) / (2 aa) before clipping. */
  function EntryRoot(s: Section, k: Kernel, p: Particle, sqrt: real -> real): real
  {
    (-Bb(s, p) - sqrt(Det(s, k, p))) / (2.0 * Aa(s))
  }

  function ExitRoot(s: Section, k: Kernel, p: Particle, sqrt: real -> real): real
  {
    (-Bb(s, p) + sqrt(Det(s, k, p))) / (2.0 * Aa(s))
  }

  /** With an exact square root, the unclipped roots are where the line
      meets the particle's support circle: both lie at distance radkernel * h
      from the particle. */
  lemma ChordEndsOnCircle(s: Section, k: Kernel, p: Particle, sqrt: real -> real)
    requires SqrtExact(sqrt) && DetNonNegative(s, k, p)
    ensures var x := EntryRoot(s, k, p, sqrt);
      Sq(x - p.x) + Sq(Gradient(s) * x + YIntercept(s) - p.y) == Sq(k.radkernel * p.h)
    ensures var x := ExitRoot(s, k, p, sqrt);
      Sq(x - p.x) + Sq(Gradient(s) * x + YIntercept(s) - p.y) == Sq(k.radkernel * p.h)
  {
    var r := sqrt(Det(s, k, p));
    SqNegate(r);
    RootOnCircle(s, k, p, -r, EntryRoot(s, k, p, sqrt));
    RootOnCircle(s, k, p, r, ExitRoot(s, k, p, sqrt));
  }

  /** (-bb + r) / (2 aa), with r^2 == det, lies on the support circle. */
  lemma RootOnCircle(s: Section, k: Kernel, p: Particle, r: real, x: real)
    requires Sq(r) == Det(s, k, p) && x == (-Bb(s, p) + r) / (2.0 * Aa(s))
    ensures Sq(x - p.x) + Sq(Gradient(s) * x + YIntercept(s) - p.y) == Sq(k.radkernel * p.h)
  {
    QuadraticAtRoot(Aa(s), Bb(s, p), Cc(s, k, p), r, x);
    CircleQuadratic(s, k, p, x);
  }

  /** With an exact square root, a point of the line outside the chord
      between the two roots is at least radkernel * h from the particle. */
  lemma OutsideChordMissesCircle(s: Section, k: Kernel, p: Particle, sqrt: real -> real, x: real)
    requires SqrtExact(sqrt) && DetNonNegative(s, k, p)
    requires x <= EntryRoot(s, k, p, sqrt) || ExitRoot(s, k, p, sqrt) <= x
    ensures Sq(x - p.x) + Sq(Gradient(s) * x + YIntercept(s) - p.y) >= Sq(k.radkernel * p.h)
  {
    QuadraticOutsideRoots(Aa(s), Bb(s, p), Cc(s, k, p), sqrt(Det(s, k, p)), x);
    CircleQuadratic(s, k, p, x);
  }

  /** The chord loses nothing: for a compactly supported kernel, a pixel
      whose centre lies outside the chord would receive nothing from the
      particle. */
  lemma OutsideChordLosesNothing(s: Section, k: Kernel, p: Particle, sqrt: real -> real, n: int)
    requires CompactSupport(k) && Admissible(p) && s.pixcount > 0
    requires SqrtExact(sqrt) && DetNonNegative(s, k, p)
    requires XPix(s, n) <= EntryRoot(s, k, p, sqrt) || ExitRoot(s, k, p, sqrt) <= XPix(s, n)
    ensures CrossDeposit(s, k, p, n) == 0.0
  {
    var x := XPix(s, n);
    OutsideChordMissesCircle(s, k, p, sqrt, x);
    assert YPix(s, n) - p.y == Gradient(s) * x + YIntercept(s) - p.y;
    var d2 := Sq(XPix(s, n) - p.x) + Sq(YPix(s, n) - p.y);
    assert d2 == Sq(x - p.x) + Sq(Gradient(s) * x + YIntercept(s) - p.y);
    BeyondRadiusScaled(k, p, d2);
    assert CrossQ2(s, p, n) >= Sq(k.radkernel);
  }

  /** Clipping the chord loses nothing: an output pixel whose centre lies
      outside the clipped chord [xstart, xend] would receive nothing from the
      particle, because every pixel centre lies within the segment's x range. */
  lemma ClippedChordLosesNothing(s: Section, k: Kernel, p: Particle, sqrt: real -> real, n: int)
    requires CompactSupport(k) && Admissible(p) && s.pixcount > 0
    requires SqrtExact(sqrt) && DetNonNegative(s, k, p)
    requires 0 <= n < s.pixcount
    requires XPix(s, n) < XStart(s, k, p, sqrt) || XEnd(s, k, p, sqrt) < XPix(s, n)
    ensures CrossDeposit(s, k, p, n) == 0.0
  {
    PixelCentreInSection(s, n);
    var x := XPix(s, n);
    if x < XStart(s, k, p, sqrt) {
      BelowClipped(EntryRoot(s, k, p, sqrt), s.x1, s.x2, x);
    } else {
      AboveClipped(ExitRoot(s, k, p, sqrt), s.x1, s.x2, x);
    }
    OutsideChordLosesNothing(s, k, p, sqrt, n);
  }

  /** The centre of every output pixel lies between x1 and x2. */
  lemma PixelCentreInSection(s: Section, n: int)
    requires s.pixcount > 0 && 0 <= n < s.pixcount
    ensures Min(s.x1, s.x2) <= XPix(s, n) <= Max(s.x1, s.x2)
  {
    FractionBetween(s.x1, s.x2, Mid(n), s.pixcount as real);
  }

  lemma FractionBetween(x1: real, x2: real, m: real, c: real)
    requires 0.0 < m < c
    ensures Min(x1, x2) <= x1 + m * ((x2 - x1) / c) <= Max(x1, x2)
  {
    var d := (x2 - x1) / c;
    assert c * d == x2 - x1;
    if d == 0.0 {
    } else if d > 0.0 {
      ProductMonotoneRight(0.0, m, d);
      ProductMonotoneRight(m, c, d);
    } else {
      ProductMonotoneRight(0.0, m, -d);
      ProductMonotoneRight(m, c, -d);
    }
  }

  /** The distance along the line from the first endpoint to the point of the
      line at x. */
  function Distance(s: Section, x: real, sqrt: real -> real): real
  {
    sqrt(SquaredDistance(s, x))
  }

  /** A distance along the line in pixels (r / pixwidth). */
  function Ordinate(s: Section, x: real, sqrt: real -> real): real
    requires Measurable(s, sqrt)
  {
    Distance(s, x, sqrt) / PixWidth(s, sqrt)
  }

  /** A position along the line, in pixels, as a pixel index of the output:
      rounded and clipped to [0, pixcount]. A pixel whose centre lies beyond
      v is at or after the index, and a pixel before the index has its
      centre at or before v. */
  function PixelIndex(s: Section, v: real): (n: int)
    requires s.pixcount > 0
    ensures 0 <= n <= s.pixcount
    ensures 0 <= Rint(v) <= s.pixcount ==> n == Rint(v)
    ensures forall i :: 0 <= i < s.pixcount && v < Mid(i) ==> n <= i
    ensures forall i :: 0 <= i < s.pixcount && Mid(i) < v ==> i < n
    ensures forall i :: 0 <= i < s.pixcount && n <= i ==> v <= Mid(i)
    ensures forall i :: 0 <= i < s.pixcount && i < n ==> Mid(i) <= v
  {
    ClipInt(Rint(v), 0, s.pixcount)
  }

  /** Rounding and clipping keep the order of two positions. */
  lemma PixelIndexMonotone(s: Section, u: real, v: real)
    requires s.pixcount > 0 && u <= v
    ensures PixelIndex(s, u) <= PixelIndex(s, v)
  {
    RintMonotone(u, v);
  }

  /** The positions, in pixels along the line, where the line enters and
      leaves the particle's circle. */
  function ChordStart(s: Section, k: Kernel, p: Particle, sqrt: real -> real): real
    requires Measurable(s, sqrt)
  {
    Ordinate(s, XStart(s, k, p, sqrt), sqrt)
  }

  function ChordEnd(s: Section, k: Kernel, p: Particle, sqrt: real -> real): real
    requires Measurable(s, sqrt)
  {
    Ordinate(s, XEnd(s, k, p, sqrt), sqrt)
  }

  /** ipixmin and ipixmax as the source computes them (lines 184-190): the
      index of the entry point, then the index of the exit point. */
  function SpanAsWritten(s: Section, k: Kernel, p: Particle, sqrt: real -> real): (r: Range)
    requires Measurable(s, sqrt)
    ensures 0 <= r.lo <= s.pixcount && 0 <= r.hi <= s.pixcount
  {
    Range(PixelIndex(s, ChordStart(s, k, p, sqrt)), PixelIndex(s, ChordEnd(s, k, p, sqrt)))
  }

  /** The pixel range of the output the particle's chord covers: from the
      index of its nearer end to the index of its farther end. Every pixel
      whose centre lies strictly inside the chord is in the range, and every
      pixel in the range has its centre within the chord. */
  function Span(s: Section, k: Kernel, p: Particle, sqrt: real -> real): (r: Range)
    requires Measurable(s, sqrt)
    ensures 0 <= r.lo <= r.hi <= s.pixcount
    ensures var a, b := ChordStart(s, k, p, sqrt), ChordEnd(s, k, p, sqrt);
      forall i :: 0 <= i < s.pixcount && Min(a, b) < Mid(i) < Max(a, b) ==> r.lo <= i < r.hi
    ensures var a, b := ChordStart(s, k, p, sqrt), ChordEnd(s, k, p, sqrt);
      forall i :: 0 <= i < s.pixcount && r.lo <= i < r.hi ==> Min(a, b) <= Mid(i) <= Max(a, b)
  {
    var a, b := ChordStart(s, k, p, sqrt), ChordEnd(s, k, p, sqrt);
    PixelIndexMonotone(s, Min(a, b), Max(a, b));
    Range(PixelIndex(s, Min(a, b)), PixelIndex(s, Max(a, b)))
  }

  /** Where the line is vertical (identical x coordinates), the segment's x
      range is a single point: every particle's range is empty. */
  lemma VerticalSectionSpansAreEmpty(s: Section, k: Kernel, p: Particle, sqrt: real -> real)
    requires s.x1 == s.x2 && Measurable(s, sqrt)
    ensures Span(s, k, p, sqrt).lo == Span(s, k, p, sqrt).hi
  {
  }

  /** The line passes through (x1, y1) unless it has no slope. */
  lemma LineAnchored(s: Section)
    ensures Gradient(s) == 0.0 || Gradient(s) * s.x1 + YIntercept(s) - s.y1 == 0.0
  {
    LineThroughEndpoints(s);
  }

  /** On either side of the first endpoint, the distance along the line
      grows with the distance in x from x1. */
  lemma DistanceMonotone(s: Section, x: real, y: real, sqrt: real -> real)
    requires SqrtMonotone(sqrt)
    requires s.x1 <= x <= y || y <= x <= s.x1
    ensures Distance(s, x, sqrt) <= Distance(s, y, sqrt)
  {
    LineAnchored(s);
    LineDistanceMonotone(Gradient(s), YIntercept(s), s.x1, s.y1, x, y);
  }

  /** The squared distance from (x1, y1) to the point of the line at x. */
  function SquaredDistance(s: Section, x: real): (d: real)
    ensures d >= 0.0
  {
    PointDistance(Gradient(s), YIntercept(s), s.x1, s.y1, x)
  }

  /** The line enters the circle no later (in x) than it leaves it. */
  lemma ChordOrdered(s: Section, k: Kernel, p: Particle, sqrt: real -> real)
    requires SqrtMonotone(sqrt) && DetNonNegative(s, k, p)
    ensures XStart(s, k, p, sqrt) <= XEnd(s, k, p, sqrt)
  {
    QuotientMonotone(-Bb(s, p) - sqrt(Det(s, k, p)), -Bb(s, p) + sqrt(Det(s, k, p)), 2.0 * Aa(s));
    ClipMonotone((-Bb(s, p) - sqrt(Det(s, k, p))) / (2.0 * Aa(s)),
                 (-Bb(s, p) + sqrt(Det(s, k, p))) / (2.0 * Aa(s)), s.x1, s.x2);
  }

  /** With a square root that is monotone, measurable pixels have positive
      length. */
  lemma MeasurablePixWidthPositive(s: Section, sqrt: real -> real)
    requires SqrtMonotone(sqrt) && Measurable(s, sqrt)
    ensures PixWidth(s, sqrt) > 0.0
  {
    assert sqrt(Sq(s.x2 - s.x1) + Sq(s.y2 - s.y1)) >= 0.0;
  }

  /** As written, a line drawn from right to left (x2 < x1) gives every
      contributing particle an empty pixel range: the entry point has the
      smaller x and is therefore the farther one from (x1, y1). */
  lemma ReversedSpanIsEmpty(s: Section, k: Kernel, p: Particle, sqrt: real -> real)
    requires SqrtMonotone(sqrt) && Measurable(s, sqrt) && DetNonNegative(s, k, p)
    requires s.x2 < s.x1
    ensures SpanAsWritten(s, k, p, sqrt).hi <= SpanAsWritten(s, k, p, sqrt).lo
  {
    ChordOrdered(s, k, p, sqrt);
    DistanceMonotone(s, XEnd(s, k, p, sqrt), XStart(s, k, p, sqrt), sqrt);
    MeasurablePixWidthPositive(s, sqrt);
    QuotientMonotone(Distance(s, XEnd(s, k, p, sqrt), sqrt), Distance(s, XStart(s, k, p, sqrt), sqrt),
                     PixWidth(s, sqrt));
    PixelIndexMonotone(s, ChordEnd(s, k, p, sqrt), ChordStart(s, k, p, sqrt));
  }

  /** For a line drawn from left to right (x1 <= x2) the corrected range is
      the range the source computes. */
  lemma ForwardSpanUnchanged(s: Section, k: Kernel, p: Particle, sqrt: real -> real)
    requires SqrtMonotone(sqrt) && Measurable(s, sqrt) && DetNonNegative(s, k, p)
    requires s.x1 <= s.x2
    ensures Span(s, k, p, sqrt) == SpanAsWritten(s, k, p, sqrt)
  {
    ChordOrdered(s, k, p, sqrt);
    DistanceMonotone(s, XStart(s, k, p, sqrt), XEnd(s, k, p, sqrt), sqrt);
    MeasurablePixWidthPositive(s, sqrt);
    QuotientMonotone(Distance(s, XStart(s, k, p, sqrt), sqrt), Distance(s, XEnd(s, k, p, sqrt), sqrt),
                     PixWidth(s, sqrt));
  }

  /** The centre of output pixel n and the squared distance from it to the
      particle, in units of h. */
  function XPix(s: Section, n: int): real
    requires s.pixcount > 0
  {
    s.x1 + Mid(n) * XPixWidth(s)
  }

  function YPix(s: Section, n: int): real
    requires s.pixcount > 0
  {
    Gradient(s) * XPix(s, n) + YIntercept(s)
  }

  function CrossQ2(s: Section, p: Particle, n: int): real
    requires s.pixcount > 0 && Admissible(p)
  {
    (Sq(XPix(s, n) - p.x) + Sq(YPix(s, n) - p.y)) * (1.0 / Sq(p.h))
  }

  /** wab * term: what a contributing particle adds to output pixel n. */
  function CrossDeposit(s: Section, k: Kernel, p: Particle, n: int): real
    requires s.pixcount > 0 && Admissible(p)
  {
    k.w(CrossQ2(s, p, n)) * CrossTerm(p)
  }

  /** The sections the model can measure: a positive pixel count and pixels
      of non-zero length. */
  predicate Measurable(s: Section, sqrt: real -> real)
  {
    s.pixcount > 0 && PixWidth(s, sqrt) != 0.0
  }

  /** What one particle adds to output pixel n: its deposit inside its range
      if it contributes, and nothing otherwise. */
  function CrossContribution(s: Section, k: Kernel, sqrt: real -> real, p: Particle, n: int): real
  {
    if Measurable(s, sqrt) && Contributes(s, k, p) && Span(s, k, p, sqrt).lo <= n < Span(s, k, p, sqrt).hi then
      CrossDeposit(s, k, p, n)
    else
      0.0
  }

  function CrossCell(s: Section, k: Kernel, sqrt: real -> real, n: int): Particle -> real
  {
    p => CrossContribution(s, k, sqrt, p, n)
  }

  /** The value of output pixel n once every particle of ps is accounted for. */
  function ProfileAt(ps: seq<Particle>, s: Section, k: Kernel, sqrt: real -> real, n: int): real
  {
    Total(ps, CrossCell(s, k, sqrt, n))
  }

  function ContributesTo(s: Section, k: Kernel): Particle -> bool
  {
    p => Contributes(s, k, p)
  }

  /** The labels of the particles the loop visits, in table order. */
  function Contributors(ps: seq<Particle>, s: Section, k: Kernel): (r: seq<nat>)
    ensures forall t :: 0 <= t < |r| ==> r[t] < |ps| && Contributes(s, k, ps[r[t]])
    ensures forall n :: 0 <= n < |ps| && Contributes(s, k, ps[n]) ==> n in r
    ensures forall t, u :: 0 <= t < u < |r| ==> r[t] < r[u]
  {
    Where(ps, ContributesTo(s, k))
  }

  /** Lines 136-207 of the entry point, with the loop visiting the
      contributing particles by label. */
  method Interpolate2DCross(ps: seq<Particle>, k: Kernel, sqrt: real -> real,
                            x1: real := 0.0, y1: real := 0.0, x2: real := 1.0, y2: real := 1.0,
                            pixcount: int := 500)
    returns (r: Result<array<real>>)
    requires forall n :: 0 <= n < |ps| ==> Admissible(ps[n])
    requires SqrtPositive(sqrt)
    ensures var s := Section(x1, y1, x2, y2, pixcount);
      && (r.Failure? <==> CheckCross(s, k).Some?)
      && (r.Failure? ==> CheckCross(s, k) == Some(r.error))
      && (r.Success? ==>
            && fresh(r.value) && r.value.Length == pixcount
            && forall n :: 0 <= n < pixcount ==> r.value[n] == ProfileAt(ps, s, k, sqrt, n))
  {
    var s := Section(x1, y1, x2, y2, pixcount);
    if IsClose(y2, y1) && IsClose(x2, x1) {
      return Failure(ZeroLengthCrossSection);
    }
    if pixcount <= 0 {
      return Failure(PixCountNotPositive);
    }
    if k.ndims != 2 {
      return Failure(KernelNotTwoDimensional);
    }
    var output := new real[pixcount](_ => 0.0);
    ValidatedPixWidthPositive(s, k, sqrt);
    var labels := Contributors(ps, s, k);
    AddContributors(output, ps, s, k, sqrt, labels);
    forall n | 0 <= n < pixcount
      ensures output[n] == ProfileAt(ps, s, k, sqrt, n)
    {
      TotalWhere(ps, ContributesTo(s, k), CrossCell(s, k, sqrt, n));
    }
    return Success(output);
  }

  /** The loop at line 194, visiting the given labels in order: each output
      pixel receives the contributions of the particles with those labels. */
  method AddContributors(output: array<real>, ps: seq<Particle>, s: Section, k: Kernel, sqrt: real -> real,
                         labels: seq<nat>)
    requires output.Length == s.pixcount && Measurable(s, sqrt)
    requires forall t :: 0 <= t < |labels| ==> labels[t] < |ps| && Contributes(s, k, ps[labels[t]])
    modifies output
    ensures forall n :: 0 <= n < output.Length ==>
      output[n] == old(output[n]) + Total(Pick(ps, labels), CrossCell(s, k, sqrt, n))
  {
    var t := 0;
    while t < |labels|
      invariant 0 <= t <= |labels|
      invariant forall n :: 0 <= n < output.Length ==>
        output[n] == old(output[n]) + Total(Pick(ps, labels[..t]), CrossCell(s, k, sqrt, n))
    {
      var i := labels[t];
      AddContributor(output, s, k, sqrt, ps[i]);
      PickSnoc(ps, labels, t);
      forall n | 0 <= n < output.Length
        ensures output[n] == old(output[n]) + Total(Pick(ps, labels[..t + 1]), CrossCell(s, k, sqrt, n))
      {
        TotalSnoc(Pick(ps, labels[..t]), ps[i], CrossCell(s, k, sqrt, n));
      }
      t := t + 1;
    }
    assert labels[..t] == labels;
  }

  /** One pass of the loop at line 194: the particle's deposit goes into
      output[ipixmin:ipixmax]. */
  method AddContributor(output: array<real>, s: Section, k: Kernel, sqrt: real -> real, p: Particle)
    requires output.Length == s.pixcount && Measurable(s, sqrt) && Contributes(s, k, p)
    modifies output
    ensures forall n :: 0 <= n < output.Length ==> output[n] == old(output[n]) + CrossContribution(s, k, sqrt, p, n)
  {
    var span := Span(s, k, p, sqrt);
    AddSpan(output, s, k, p, span.lo, span.hi);
  }

  /** Lines 196-205: add the particle's deposit to output[lo:hi]. */
  method AddSpan(output: array<real>, s: Section, k: Kernel, p: Particle, lo: int, hi: int)
    requires output.Length == s.pixcount && s.pixcount > 0 && Admissible(p)
    requires 0 <= lo && hi <= s.pixcount
    modifies output
    ensures forall n :: 0 <= n < output.Length ==>
      output[n] == old(output[n]) + (if lo <= n < hi then CrossDeposit(s, k, p, n) else 0.0)
  {
    var gradient := Gradient(s);
    var yint := YIntercept(s);
    var xpixwidth := (s.x2 - s.x1) / s.pixcount as real;
    var term := p.target * p.m / (p.rho * Sq(p.h));
    assert gradient == Gradient(s) && yint == YIntercept(s);
    assert xpixwidth == XPixWidth(s) && term == CrossTerm(p);
    var idx := lo;
    while idx < hi
      invariant lo <= idx && (idx <= hi || idx == lo)
      invariant forall n :: 0 <= n < output.Length ==>
        output[n] == old(output[n]) + (if lo <= n < idx then CrossDeposit(s, k, p, n) else 0.0)
    {
      var xpix := s.x1 + (idx as real + 0.5) * xpixwidth;
      assert xpix == XPix(s, idx);
      var ypix := gradient * xpix + yint;
      assert ypix == YPix(s, idx);
      var dy := ypix - p.y;
      var dx := xpix - p.x;
      var q2 := (Sq(dx) + Sq(dy)) * (1.0 / Sq(p.h));
      assert q2 == CrossQ2(s, p, idx);
      var wab := k.w(q2);
      assert wab * term == CrossDeposit(s, k, p, idx);
      output[idx] := output[idx] + wab * term;
      idx := idx + 1;
    }
  }

  /** The squared distance from the particle to the point of the line at x,
      less the squared support radius, is the quadratic aa x^2 + bb x + cc. */
  lemma CircleQuadratic(s: Section, k: Kernel, p: Particle, x: real)
    ensures Sq(x - p.x) + Sq(Gradient(s) * x + YIntercept(s) - p.y) - Sq(k.radkernel * p.h)
         == Aa(s) * Sq(x) + Bb(s, p) * x + Cc(s, k, p)
  {
    LineCircleExpansion(x, p.x, p.y, Gradient(s), YIntercept(s), k.radkernel * p.h);
  }

  /** The discriminant filter is sound: when det < 0 every point of the
      line lies farther from the particle than its support radius. */
  lemma NegativeDetMissesCircle(s: Section, k: Kernel, p: Particle, x: real)
    requires !DetNonNegative(s, k, p)
    ensures Sq(x - p.x) + Sq(Gradient(s) * x + YIntercept(s) - p.y) > Sq(k.radkernel * p.h)
  {
    CircleQuadratic(s, k, p, x);
    QuadraticPositive(Aa(s), Bb(s, p), Cc(s, k, p), x);
  }

  /** The discriminant filter loses nothing: for a kernel that vanishes
      outside its support, a particle it removes would add zero to every
      pixel of the line. */
  lemma DetFilterLosesNothing(s: Section, k: Kernel, p: Particle, n: int)
    requires CompactSupport(k) && Admissible(p) && s.pixcount > 0
    requires !DetNonNegative(s, k, p)
    ensures CrossDeposit(s, k, p, n) == 0.0
  {
    var x := XPix(s, n);
    NegativeDetMissesCircle(s, k, p, x);
    assert YPix(s, n) - p.y == Gradient(s) * x + YIntercept(s) - p.y;
    var d2 := Sq(XPix(s, n) - p.x) + Sq(YPix(s, n) - p.y);
    assert d2 == Sq(x - p.x) + Sq(Gradient(s) * x + YIntercept(s) - p.y);
    BeyondRadiusScaled(k, p, d2);
    assert CrossQ2(s, p, n) >= Sq(k.radkernel);
  }

  /** A squared distance of at least the squared support radius is, in
      units of h, at least the kernel's squared radius. */
  lemma BeyondRadiusScaled(k: Kernel, p: Particle, d2: real)
    requires Admissible(p) && d2 >= Sq(k.radkernel * p.h)
    ensures d2 * (1.0 / Sq(p.h)) >= Sq(k.radkernel)
  {
    SqProduct(k.radkernel, p.h);
    var h2 := Sq(p.h);
    assert (Sq(k.radkernel) * h2) * (1.0 / h2) == Sq(k.radkernel);
    assert 1.0 / h2 > 0.0;
    ProductMonotoneRight(Sq(k.radkernel) * h2, d2, 1.0 / h2);
  }

  /** The profile does not depend on the order of the particle table (with
      exact arithmetic). */
  lemma ProfileIndependentOfOrder(ps: seq<Particle>, qs: seq<Particle>, s: Section, k: Kernel,
                                  sqrt: real -> real, n: int)
    requires multiset(ps) == multiset(qs)
    ensures ProfileAt(ps, s, k, sqrt, n) == ProfileAt(qs, s, k, sqrt, n)
  {
    TotalPermutation(ps, qs, CrossCell(s, k, sqrt, n));
  }

  /** Profiles of two particle tables add up. */
  lemma ProfileSuperposition(ps: seq<Particle>, qs: seq<Particle>, s: Section, k: Kernel,
                             sqrt: real -> real, n: int)
    ensures ProfileAt(ps + qs, s, k, sqrt, n) == ProfileAt(ps, s, k, sqrt, n) + ProfileAt(qs, s, k, sqrt, n)
  {
    TotalConcat(ps, qs, CrossCell(s, k, sqrt, n));
  }

  /** A particle that either filter removes leaves the profile as it was. */
  lemma FilteredParticleChangesNothing(ps: seq<Particle>, p: Particle, s: Section, k: Kernel,
                                       sqrt: real -> real, n: int)
    requires !Contributes(s, k, p)
    ensures ProfileAt(ps + [p], s, k, sqrt, n) == ProfileAt(ps, s, k, sqrt, n)
  {
    TotalSnoc(ps, p, CrossCell(s, k, sqrt, n));
  }

  /** The profile is made by the contributing particles alone. */
  lemma OnlyContributorsCount(ps: seq<Particle>, s: Section, k: Kernel, sqrt: real -> real, n: int)
    ensures ProfileAt(Pick(ps, Contributors(ps, s, k)), s, k, sqrt, n) == ProfileAt(ps, s, k, sqrt, n)
  {
    TotalWhere(ps, ContributesTo(s, k), CrossCell(s, k, sqrt, n));
  }

  /** A vertical line (x1 == x2) has an all-zero profile: the x range every
      intersection is clipped to is a single point. */
  lemma VerticalSectionIsBlank(ps: seq<Particle>, s: Section, k: Kernel, sqrt: real -> real, n: int)
    requires s.x1 == s.x2
    ensures ProfileAt(ps, s, k, sqrt, n) == 0.0
  {
    forall m | 0 <= m < |ps|
      ensures CrossCell(s, k, sqrt, n)(ps[m]) == 0.0
    {
      if Measurable(s, sqrt) {
        VerticalSectionSpansAreEmpty(s, k, ps[m], sqrt);
      }
    }
    TotalOfZeros(ps, CrossCell(s, k, sqrt, n));
  }

  /** What one particle adds to output pixel n with the pixel range as the
      source computes it. */
  function CrossContributionAsWritten(s: Section, k: Kernel, sqrt: real -> real, p: Particle, n: int): real
  {
    if Measurable(s, sqrt) && Contributes(s, k, p)
       && SpanAsWritten(s, k, p, sqrt).lo <= n < SpanAsWritten(s, k, p, sqrt).hi then
      CrossDeposit(s, k, p, n)
    else
      0.0
  }

  function CrossCellAsWritten(s: Section, k: Kernel, sqrt: real -> real, n: int): Particle -> real
  {
    p => CrossContributionAsWritten(s, k, sqrt, p, n)
  }

  /** Output pixel n as the source computes it. */
  function ProfileAsWritten(ps: seq<Particle>, s: Section, k: Kernel, sqrt: real -> real, n: int): real
  {
    Total(ps, CrossCellAsWritten(s, k, sqrt, n))
  }

  /** As written, a line drawn from right to left produces an all-zero
      profile, whatever the particles. */
  lemma ReversedSectionIsBlankAsWritten(ps: seq<Particle>, s: Section, k: Kernel, sqrt: real -> real, n: int)
    requires SqrtMonotone(sqrt) && s.x2 < s.x1
    ensures ProfileAsWritten(ps, s, k, sqrt, n) == 0.0
  {
    forall m | 0 <= m < |ps|
      ensures CrossCellAsWritten(s, k, sqrt, n)(ps[m]) == 0.0
    {
      if Measurable(s, sqrt) && Contributes(s, k, ps[m]) {
        ReversedSpanIsEmpty(s, k, ps[m], sqrt);
      }
    }
    TotalOfZeros(ps, CrossCellAsWritten(s, k, sqrt, n));
  }

  /** For a line drawn from left to right the corrected profile is the
      profile the source computes. */
  lemma ForwardSectionAgreesAsWritten(ps: seq<Particle>, s: Section, k: Kernel, sqrt: real -> real, n: int)
    requires SqrtMonotone(sqrt) && s.x1 <= s.x2
    ensures ProfileAsWritten(ps, s, k, sqrt, n) == ProfileAt(ps, s, k, sqrt, n)
  {
    forall m | 0 <= m < |ps|
      ensures CrossCellAsWritten(s, k, sqrt, n)(ps[m]) == CrossCell(s, k, sqrt, n)(ps[m])
    {
      if Measurable(s, sqrt) && Contributes(s, k, ps[m]) {
        ForwardSpanUnchanged(s, k, ps[m], sqrt);
      }
    }
    TotalPointwise(ps, CrossCellAsWritten(s, k, sqrt, n), CrossCell(s, k, sqrt, n));
  }

  // The loop header as written (line 194). The determinant mask is built on
  // the rows that passed the weight filter, so nonzero() returns POSITIONS
  // among those rows, while ipixmin, term and the data columns are then
  // indexed by LABEL. With the default row labels 0, 1, ... a label is a
  // row's position in the whole table.

  function WeightMask(): Particle -> bool
  {
    p => PassesWeight(p)
  }

  function DetMask(s: Section, k: Kernel): Particle -> bool
  {
    p => DetNonNegative(s, k, p)
  }

  /** The labels of the rows that pass the weight filter. */
  function WeightSurvivors(ps: seq<Particle>): seq<nat>
  {
    Where(ps, WeightMask())
  }

  /** filter_det.to_numpy().nonzero()[0]: the positions, among the weight
      survivors, of the rows whose determinant is non-negative. */
  function DetPositions(ps: seq<Particle>, s: Section, k: Kernel): seq<nat>
  {
    Where(Pick(ps, WeightSurvivors(ps)), DetMask(s, k))
  }

  /** The loop as written: it raises KeyError at the first position that is
      not a label of ipixmin; otherwise it visits those positions as labels. */
  function LoopLabelsAsWritten(ps: seq<Particle>, s: Section, k: Kernel): Result<seq<nat>>
  {
    var pos := DetPositions(ps, s, k);
    if forall t :: 0 <= t < |pos| ==> pos[t] in Contributors(ps, s, k) then Success(pos)
    else Failure(KeyError)
  }

  /** The labels of the determinant survivors are exactly the contributors. */
  lemma SurvivorLabels(ps: seq<Particle>, s: Section, k: Kernel)
    ensures Pick(WeightSurvivors(ps), DetPositions(ps, s, k)) == Contributors(ps, s, k)
  {
    WhereTwice(ps, WeightMask(), DetMask(s, k), ContributesTo(s, k));
  }

  /** As written, the loop either visits exactly the contributors (which is
      what the corrected loop of Interpolate2DCross does) or raises KeyError;
      it succeeds precisely when positions and labels coincide. */
  lemma AsWrittenVisitsContributorsOrRaises(ps: seq<Particle>, s: Section, k: Kernel)
    ensures LoopLabelsAsWritten(ps, s, k).Success? <==> DetPositions(ps, s, k) == Contributors(ps, s, k)
    ensures LoopLabelsAsWritten(ps, s, k).Success? ==> LoopLabelsAsWritten(ps, s, k).value == Contributors(ps, s, k)
    ensures LoopLabelsAsWritten(ps, s, k).Failure? ==> LoopLabelsAsWritten(ps, s, k).error == KeyError
  {
    SurvivorLabels(ps, s, k);
    PositionsAsLabels(WeightSurvivors(ps), DetPositions(ps, s, k));
  }

  /** When no particle is removed by the weight filter, positions and labels
      coincide and the loop as written visits the contributors. */
  lemma AsWrittenAgreesWithoutWeightFiltering(ps: seq<Particle>, s: Section, k: Kernel)
    requires forall n :: 0 <= n < |ps| ==> PassesWeight(ps[n])
    ensures LoopLabelsAsWritten(ps, s, k) == Success(Contributors(ps, s, k))
  {
    WhereAll(ps, WeightMask());
    SurvivorLabels(ps, s, k);
    var pos := DetPositions(ps, s, k);
    assert Pick(WeightSurvivors(ps), pos) == pos;
    AsWrittenVisitsContributorsOrRaises(ps, s, k);
  }

  // A two-particle table on which the loop as written raises KeyError: the
  // first particle has a zero target value and is removed by the weight
  // filter, the second sits at the origin with unit mass, density, smoothing
  // length and target value, and the line runs along the x axis from
  // (-1, 0) to (1, 0) with a kernel of unit radius. The only contributor has
  // label 1 but sits at position 0 among the weight survivors.

  predicate UnitParticleAtOrigin(p: Particle)
  {
    p.x == 0.0 && p.y == 0.0 && p.m == 1.0 && p.rho == 1.0 && p.h == 1.0 && p.target == 1.0
  }

  predicate KeyErrorExample(ps: seq<Particle>, s: Section, k: Kernel)
  {
    && |ps| == 2 && ps[0].target == 0.0 && UnitParticleAtOrigin(ps[1])
    && s.x1 == -1.0 && s.y1 == 0.0 && s.x2 == 1.0 && s.y2 == 0.0 && s.pixcount == 4
    && k.ndims == 2 && k.radkernel == 1.0
  }

  lemma ExampleWeights(ps: seq<Particle>, s: Section, k: Kernel)
    requires KeyErrorExample(ps, s, k)
    ensures !PassesWeight(ps[0]) && PassesWeight(ps[1])
  {
    assert Sq(1.0) == 1.0;
    assert CrossTerm(ps[1]) == 1.0;
  }

  lemma ExampleLine(s: Section)
    requires s.x1 == -1.0 && s.y1 == 0.0 && s.x2 == 1.0 && s.y2 == 0.0
    ensures Gradient(s) == 0.0 && YIntercept(s) == 0.0
  {
    assert !IsClose(s.x2, s.x1);
    assert Gradient(s) == 0.0;
    ZeroTimes(Gradient(s), s.x2);
  }

  lemma ExampleBb(s: Section, p: Particle)
    requires Gradient(s) == 0.0 && p.x == 0.0
    ensures Bb(s, p) == 0.0
  {
    ZeroTimes(Gradient(s), YIntercept(s) - p.y);
  }

  lemma ExampleAa(s: Section)
    requires Gradient(s) == 0.0
    ensures Aa(s) == 1.0
  {
    assert Sq(0.0) == 0.0;
  }

  lemma ExampleCc(s: Section, k: Kernel, p: Particle)
    requires YIntercept(s) == 0.0 && p.x == 0.0 && p.y == 0.0 && k.radkernel == 1.0 && p.h == 1.0
    ensures Cc(s, k, p) == -1.0
  {
    assert Sq(0.0) == 0.0 && Sq(1.0) == 1.0;
  }

  lemma ExampleCoefficients(ps: seq<Particle>, s: Section, k: Kernel)
    requires KeyErrorExample(ps, s, k)
    ensures Aa(s) == 1.0 && Bb(s, ps[1]) == 0.0 && Cc(s, k, ps[1]) == -1.0
  {
    ExampleLine(s);
    ExampleBb(s, ps[1]);
    ExampleAa(s);
    ExampleCc(s, k, ps[1]);
  }

  lemma ExampleDet(ps: seq<Particle>, s: Section, k: Kernel)
    requires KeyErrorExample(ps, s, k)
    ensures DetNonNegative(s, k, ps[1])
  {
    ExampleCoefficients(ps, s, k);
    ExampleDiscriminant(Aa(s), Bb(s, ps[1]), Cc(s, k, ps[1]));
  }

  lemma ZeroTimes(g: real, x: real)
    requires g == 0.0
    ensures g * x == 0.0
  {
  }

  lemma ExampleDiscriminant(a: real, b: real, c: real)
    requires b == 0.0 && a == 1.0 && c == -1.0
    ensures Discriminant(a, b, c) >= 0.0
  {
  }

  lemma ExampleSurvivors(ps: seq<Particle>, s: Section, k: Kernel)
    requires KeyErrorExample(ps, s, k)
    ensures WeightSurvivors(ps) == [1]
  {
    ExampleWeights(ps, s, k);
    TwoRowMask(ps, WeightMask());
  }

  lemma ExampleContributors(ps: seq<Particle>, s: Section, k: Kernel)
    requires KeyErrorExample(ps, s, k)
    ensures Contributors(ps, s, k) == [1]
  {
    ExampleWeights(ps, s, k);
    ExampleDet(ps, s, k);
    TwoRowMask(ps, ContributesTo(s, k));
  }

  lemma ExamplePositions(ps: seq<Particle>, s: Section, k: Kernel)
    requires KeyErrorExample(ps, s, k)
    ensures DetPositions(ps, s, k) == [0]
  {
    ExampleSurvivors(ps, s, k);
    ExampleDet(ps, s, k);
    var q := Pick(ps, WeightSurvivors(ps));
    assert q == [ps[1]];
    KeptRow(q, DetMask(s, k));
  }

  /** A mask over one row that keeps it. */
  lemma KeptRow(q: seq<Particle>, keep: Particle -> bool)
    requires |q| == 1 && keep(q[0])
    ensures Where(q, keep) == [0]
  {
    assert q[..0] == [];
  }

  /** A mask over two rows that drops the first and keeps the second. */
  lemma TwoRowMask(ps: seq<Particle>, keep: Particle -> bool)
    requires |ps| == 2 && !keep(ps[0]) && keep(ps[1])
    ensures Where(ps, keep) == [1]
  {
    assert ps[..1][..0] == [];
    assert Where(ps[..1], keep) == [];
  }

  /** The loop as written raises KeyError on the example table. */
  lemma AsWrittenRaisesKeyError(ps: seq<Particle>, s: Section, k: Kernel)
    requires KeyErrorExample(ps, s, k)
    ensures LoopLabelsAsWritten(ps, s, k) == Failure(KeyError)
  {
    ExampleContributors(ps, s, k);
    ExamplePositions(ps, s, k);
    var pos := DetPositions(ps, s, k);
    assert pos[0] == 0 && Contributors(ps, s, k) == [1];
    assert pos[0] !in Contributors(ps, s, k);
  }
}
