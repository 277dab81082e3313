/** interpolate2D: splatting particles onto a pixcounty x pixcountx image.
    Each particle with a positive weight adds term * w(q2) to every pixel of
    its clamped bounding box, where q2 is the squared distance from the
    particle to the pixel centre in units of the smoothing length. */
module Grid2D {
  import opened Numerics
  import opened Kernels
  import opened Outcomes
  import opened Particles
  import opened Accumulation

  /** The image geometry: the position of the lower-left image corner, the
      size of one pixel and the number of pixels along each axis. */
  datatype Grid = Grid(xmin: real, ymin: real, pixwidthx: real, pixwidthy: real, pixcountx: int, pixcounty: int)

  /** The parameter validation, in the order the checks are made. */
  function Check2D(g: Grid, k: Kernel): (e: Option<Error>)
    ensures e == None <==>
      g.pixwidthx > 0.0 && g.pixwidthy > 0.0 && g.pixcountx > 0 && g.pixcounty > 0 && k.ndims == 2
    ensures e == Some(PixWidthXNotPositive) <==> g.pixwidthx <= 0.0
    ensures e == Some(PixWidthYNotPositive) <==> g.pixwidthx > 0.0 && g.pixwidthy <= 0.0
    ensures e == Some(PixCountXNotPositive) <==> g.pixwidthx > 0.0 && g.pixwidthy > 0.0 && g.pixcountx <= 0
    ensures e == Some(PixCountYNotPositive) <==>
      g.pixwidthx > 0.0 && g.pixwidthy > 0.0 && g.pixcountx > 0 && g.pixcounty <= 0
    ensures e == Some(KernelNotTwoDimensional) <==>
      g.pixwidthx > 0.0 && g.pixwidthy > 0.0 && g.pixcountx > 0 && g.pixcounty > 0 && k.ndims != 2
  {
    if g.pixwidthx <= 0.0 then Some(PixWidthXNotPositive)
    else if g.pixwidthy <= 0.0 then Some(PixWidthYNotPositive)
    else if g.pixcountx <= 0 then Some(PixCountXNotPositive)
    else if g.pixcounty <= 0 then Some(PixCountYNotPositive)
    else if k.ndims != 2 then Some(KernelNotTwoDimensional)
    else None
  }

  /** The pixel indices affected along one axis, given the edges of the
      particle's support in pixel coordinates, `lower` and `upper` (a pixel
      centre at index i sits at pixel coordinate i + 0.5). Both edges are
      rounded; the lower end is raised to 0 and the upper end lowered to
      count, but neither is clamped on its other side, so the range can be
      empty. Every pixel whose centre lies strictly inside the support is
      covered, and every covered pixel has its centre within the support. */
  function AxisRange(lower: real, upper: real, count: int): (r: Range)
    ensures 0 <= r.lo && r.hi <= count
    ensures forall i :: 0 <= i < count && lower < Mid(i) < upper ==> r.lo <= i < r.hi
    ensures forall i :: r.lo <= i < r.hi ==> lower <= Mid(i) <= upper
  {
    var lo := Rint(lower);
    var hi := Rint(upper);
    Range(if lo < 0 then 0 else lo, if hi > count then count else hi)
  }

  /** The support radius of the kernel scaled by the smoothing length. */
  function RadKern(k: Kernel, p: Particle): real
  {
    k.radkernel * p.h
  }

  /** The clamped bounding box of a particle: column range, then row range. */
  datatype Box = Box(cols: Range, rows: Range)

  function ParticleBox(g: Grid, k: Kernel, p: Particle): (b: Box)
    requires g.pixwidthx > 0.0 && g.pixwidthy > 0.0
    ensures 0 <= b.cols.lo && b.cols.hi <= g.pixcountx
    ensures 0 <= b.rows.lo && b.rows.hi <= g.pixcounty
  {
    Box(AxisRange((p.x - RadKern(k, p) - g.xmin) / g.pixwidthx, (p.x + RadKern(k, p) - g.xmin) / g.pixwidthx, g.pixcountx),
        AxisRange((p.y - RadKern(k, p) - g.ymin) / g.pixwidthy, (p.y + RadKern(k, p) - g.ymin) / g.pixwidthy, g.pixcounty))
  }

  predicate InBox(b: Box, j: int, i: int)
  {
    b.rows.lo <= j < b.rows.hi && b.cols.lo <= i < b.cols.hi
  }

  /** The centre of pixel column i and of pixel row j. */
  function XCenter(g: Grid, i: int): real
  {
    g.xmin + Mid(i) * g.pixwidthx
  }

  function YCenter(g: Grid, j: int): real
  {
    g.ymin + Mid(j) * g.pixwidthy
  }

  /** The squared distances to a pixel centre along each axis, in units of h. */
  function DX2(g: Grid, p: Particle, i: int): real
    requires Admissible(p)
  {
    Sq(XCenter(g, i) - p.x) * Hi21(p)
  }

  function DY2(g: Grid, p: Particle, j: int): real
    requires Admissible(p)
  {
    Sq(YCenter(g, j) - p.y) * Hi21(p)
  }

  /** A particle the grid path splats: one the model admits, with a positive
      weight, on a grid with positive pixel sizes. */
  predicate Splatted(g: Grid, p: Particle)
  {
    Admissible(p) && g.pixwidthx > 0.0 && g.pixwidthy > 0.0 && Weight(p) > 0.0
  }

  /** term * wab: the kernel-weighted term a particle deposits at pixel (j, i). */
  function Deposit(g: Grid, k: Kernel, p: Particle, j: int, i: int): real
    requires Admissible(p)
  {
    Term(p) * k.w(DX2(g, p, i) + DY2(g, p, j))
  }

  /** What one particle adds to pixel (j, i): its deposit inside its box,
      nothing outside it, and nothing at all when it is skipped. */
  function Contribution(g: Grid, k: Kernel, p: Particle, j: int, i: int): real
  {
    if Splatted(g, p) && InBox(ParticleBox(g, k, p), j, i) then Deposit(g, k, p, j, i) else 0.0
  }

  function CellContribution(g: Grid, k: Kernel, j: int, i: int): Particle -> real
  {
    p => Contribution(g, k, p, j, i)
  }

  /** The value of pixel (j, i) once every particle of ps has been splatted. */
  function ImageAt(ps: seq<Particle>, g: Grid, k: Kernel, j: int, i: int): real
  {
    Total(ps, CellContribution(g, k, j, i))
  }

  /** Lines 38-107 of the entry point: validate, allocate a zeroed image and
      splat the particles one after another. */
  method Interpolate2D(ps: seq<Particle>, k: Kernel, pixwidthx: real, pixwidthy: real,
                       xmin: real := 0.0, ymin: real := 0.0, pixcountx: int := 480, pixcounty: int := 480)
    returns (r: Result<array2<real>>)
    requires forall n :: 0 <= n < |ps| ==> Admissible(ps[n])
    ensures var g := Grid(xmin, ymin, pixwidthx, pixwidthy, pixcountx, pixcounty);
      && (r.Failure? <==> Check2D(g, k).Some?)
      && (r.Failure? ==> Check2D(g, k) == Some(r.error))
      && (r.Success? ==>
            && fresh(r.value)
            && r.value.Length0 == pixcounty && r.value.Length1 == pixcountx
            && forall j, i :: 0 <= j < pixcounty && 0 <= i < pixcountx ==> r.value[j, i] == ImageAt(ps, g, k, j, i))
  {
    var g := Grid(xmin, ymin, pixwidthx, pixwidthy, pixcountx, pixcounty);
    if pixwidthx <= 0.0 {
      return Failure(PixWidthXNotPositive);
    }
    if pixwidthy <= 0.0 {
      return Failure(PixWidthYNotPositive);
    }
    if pixcountx <= 0 {
      return Failure(PixCountXNotPositive);
    }
    if pixcounty <= 0 {
      return Failure(PixCountYNotPositive);
    }
    if k.ndims != 2 {
      return Failure(KernelNotTwoDimensional);
    }
    var image := new real[pixcounty, pixcountx]((_, _) => 0.0);
    var n := 0;
    while n < |ps|
      invariant 0 <= n <= |ps|
      invariant forall j, i :: 0 <= j < pixcounty && 0 <= i < pixcountx ==> image[j, i] == ImageAt(ps[..n], g, k, j, i)
    {
      AddParticle(image, g, k, ps[n]);
      assert ps[..n + 1] == ps[..n] + [ps[n]];
      forall j, i | 0 <= j < pixcounty && 0 <= i < pixcountx
        ensures image[j, i] == ImageAt(ps[..n + 1], g, k, j, i)
      {
        TotalSnoc(ps[..n], ps[n], CellContribution(g, k, j, i));
      }
      n := n + 1;
    }
    assert ps[..n] == ps;
    return Success(image);
  }

  /** Lines 54-105: the body of the particle loop. */
  method AddParticle(image: array2<real>, g: Grid, k: Kernel, p: Particle)
    requires Check2D(g, k).None? && Admissible(p)
    requires image.Length0 == g.pixcounty && image.Length1 == g.pixcountx
    modifies image
    ensures forall j, i :: 0 <= j < image.Length0 && 0 <= i < image.Length1 ==>
      image[j, i] == old(image[j, i]) + Contribution(g, k, p, j, i)
  {
    var weight := p.m / (p.rho * Sq(p.h));
    if weight <= 0.0 {
      assert !Splatted(g, p);
      return;
    }
    var term := weight * p.target;
    var hi1 := 1.0 / p.h;
    var hi21 := Sq(hi1);
    assert weight == Weight(p) && term == Term(p) && hi21 == Hi21(p);
    var b := ClampedBox(g, k, p);
    var dx2i := FillDx2(g, p, b.cols.lo, b.cols.hi);
    SplatBox(image, g, k, p, term, hi21, dx2i, b);
    assert Splatted(g, p);
  }

  /** Lines 62-85: the bounding box of the particle, rounded and clamped. */
  method ClampedBox(g: Grid, k: Kernel, p: Particle) returns (b: Box)
    requires g.pixwidthx > 0.0 && g.pixwidthy > 0.0
    ensures b == ParticleBox(g, k, p)
  {
    var radkern := k.radkernel * p.h;
    var ipixmin := Rint((p.x - radkern - g.xmin) / g.pixwidthx);
    var jpixmin := Rint((p.y - radkern - g.ymin) / g.pixwidthy);
    var ipixmax := Rint((p.x + radkern - g.xmin) / g.pixwidthx);
    var jpixmax := Rint((p.y + radkern - g.ymin) / g.pixwidthy);

    if ipixmin < 0 {
      ipixmin := 0;
    }
    if ipixmax > g.pixcountx {
      ipixmax := g.pixcountx;
    }
    if jpixmin < 0 {
      jpixmin := 0;
    }
    if jpixmax > g.pixcounty {
      jpixmax := g.pixcounty;
    }
    assert radkern == RadKern(k, p);
    b := Box(Range(ipixmin, ipixmax), Range(jpixmin, jpixmax));
  }

  /** Lines 92-105: the nested loops over the rows and columns of the box. */
  method SplatBox(image: array2<real>, g: Grid, k: Kernel, p: Particle, term: real, hi21: real,
                  dx2i: array<real>, b: Box)
    requires Admissible(p) && term == Term(p) && hi21 == Hi21(p)
    requires image.Length0 == g.pixcounty && image.Length1 == g.pixcountx
    requires 0 <= b.cols.lo && b.cols.hi <= g.pixcountx && 0 <= b.rows.lo && b.rows.hi <= g.pixcounty
    requires dx2i.Length == g.pixcountx
    requires forall i :: b.cols.lo <= i < b.cols.hi ==> dx2i[i] == DX2(g, p, i)
    modifies image
    ensures forall j, i :: 0 <= j < image.Length0 && 0 <= i < image.Length1 ==>
      image[j, i] == old(image[j, i]) + (if InBox(b, j, i) then Deposit(g, k, p, j, i) else 0.0)
  {
    var jpixmin, jpixmax := b.rows.lo, b.rows.hi;
    var jpix := jpixmin;
    while jpix < jpixmax
      invariant jpixmin <= jpix && (jpix <= jpixmax || jpix == jpixmin)
      invariant forall j, i :: 0 <= j < image.Length0 && 0 <= i < image.Length1 ==>
        image[j, i] == old(image[j, i]) + (if j < jpix && InBox(b, j, i) then Deposit(g, k, p, j, i) else 0.0)
    {
      var ypix := g.ymin + (jpix as real + 0.5) * g.pixwidthy;
      assert ypix == YCenter(g, jpix);
      var dy := ypix - p.y;
      var dy2 := Sq(dy) * hi21;
      assert dy2 == DY2(g, p, jpix);
      SplatRow(image, g, k, p, term, dx2i, b.cols, jpix, dy2);
      jpix := jpix + 1;
    }
  }

  /** Lines 99-105: one row of the box, jpix, with its dy2 already computed. */
  method SplatRow(image: array2<real>, g: Grid, k: Kernel, p: Particle, term: real,
                  dx2i: array<real>, cols: Range, jpix: int, dy2: real)
    requires Admissible(p) && term == Term(p)
    requires image.Length0 == g.pixcounty && image.Length1 == g.pixcountx
    requires 0 <= cols.lo && cols.hi <= g.pixcountx && 0 <= jpix < g.pixcounty
    requires dx2i.Length == g.pixcountx
    requires forall i :: cols.lo <= i < cols.hi ==> dx2i[i] == DX2(g, p, i)
    requires dy2 == DY2(g, p, jpix)
    modifies image
    ensures forall j, i :: 0 <= j < image.Length0 && 0 <= i < image.Length1 ==>
      image[j, i] == old(image[j, i]) + (if j == jpix && cols.lo <= i < cols.hi then Deposit(g, k, p, j, i) else 0.0)
  {
    var ipix := cols.lo;
    while ipix < cols.hi
      invariant cols.lo <= ipix && (ipix <= cols.hi || ipix == cols.lo)
      invariant forall j, i :: 0 <= j < image.Length0 && 0 <= i < image.Length1 ==>
        image[j, i] == old(image[j, i]) + (if j == jpix && cols.lo <= i < ipix then Deposit(g, k, p, j, i) else 0.0)
    {
      var q2 := dx2i[ipix] + dy2;
      assert q2 == DX2(g, p, ipix) + DY2(g, p, jpix);
      var wab := k.w(q2);
      assert term * wab == Deposit(g, k, p, jpix, ipix);
      image[jpix, ipix] := image[jpix, ipix] + term * wab;
      ipix := ipix + 1;
    }
  }

  /** Lines 87-90: dx2i[ipix] for the columns of the box, zero elsewhere. */
  method FillDx2(g: Grid, p: Particle, ipixmin: int, ipixmax: int) returns (dx2i: array<real>)
    requires Admissible(p) && g.pixcountx > 0 && 0 <= ipixmin && ipixmax <= g.pixcountx
    ensures fresh(dx2i) && dx2i.Length == g.pixcountx
    ensures forall i :: 0 <= i < g.pixcountx ==> dx2i[i] == if ipixmin <= i < ipixmax then DX2(g, p, i) else 0.0
  {
    var hi1 := 1.0 / p.h;
    var hi21 := Sq(hi1);
    dx2i := new real[g.pixcountx](_ => 0.0);
    var ipix := ipixmin;
    while ipix < ipixmax
      invariant ipixmin <= ipix && (ipix <= ipixmax || ipix == ipixmin)
      invariant forall i :: 0 <= i < g.pixcountx ==> dx2i[i] == if ipixmin <= i < ipix then DX2(g, p, i) else 0.0
    {
      dx2i[ipix] := Sq(g.xmin + (ipix as real + 0.5) * g.pixwidthx - p.x) * hi21;
      ipix := ipix + 1;
    }
  }

  /** A particle whose smoothing circle reaches no further than its box: for
      a kernel that vanishes outside its support, every pixel of the image
      outside the box would have received nothing anyway. */
  lemma BoxLosesNothing(g: Grid, k: Kernel, p: Particle, j: int, i: int)
    requires CompactSupport(k) && Splatted(g, p)
    requires 0 <= j < g.pixcounty && 0 <= i < g.pixcountx
    requires !InBox(ParticleBox(g, k, p), j, i)
    ensures Deposit(g, k, p, j, i) == 0.0
  {
    var b := ParticleBox(g, k, p);
    DistanceNonNegative(g, p, j, i);
    if !(b.cols.lo <= i < b.cols.hi) {
      ColumnOutsideBox(g, k, p, i);
      ColumnFar(g, k, p, i);
      ColumnScaled(g, k, p, i);
    } else {
      RowOutsideBox(g, k, p, j);
      RowFar(g, k, p, j);
      RowScaled(g, k, p, j);
    }
    var q2 := DX2(g, p, i) + DY2(g, p, j);
    assert q2 >= Sq(k.radkernel);
    assert k.w(q2) == 0.0;
  }

  lemma ColumnScaled(g: Grid, k: Kernel, p: Particle, i: int)
    requires Admissible(p) && Sq(XCenter(g, i) - p.x) >= Sq(RadKern(k, p))
    ensures DX2(g, p, i) >= Sq(k.radkernel)
  {
    ScaledRadius(k, p, Sq(XCenter(g, i) - p.x));
  }

  lemma RowScaled(g: Grid, k: Kernel, p: Particle, j: int)
    requires Admissible(p) && Sq(YCenter(g, j) - p.y) >= Sq(RadKern(k, p))
    ensures DY2(g, p, j) >= Sq(k.radkernel)
  {
    ScaledRadius(k, p, Sq(YCenter(g, j) - p.y));
  }

  lemma DistanceNonNegative(g: Grid, p: Particle, j: int, i: int)
    requires Admissible(p)
    ensures DX2(g, p, i) >= 0.0 && DY2(g, p, j) >= 0.0
  {
    assert 1.0 / p.h > 0.0;
    ProductNonNegative(Sq(XCenter(g, i) - p.x), Hi21(p));
    ProductNonNegative(Sq(YCenter(g, j) - p.y), Hi21(p));
  }

  /** A column of the image outside the box has its centre outside the open
      support interval, and so is at least one support radius away. */
  lemma ColumnOutsideBox(g: Grid, k: Kernel, p: Particle, i: int)
    requires g.pixwidthx > 0.0 && g.pixwidthy > 0.0 && 0 <= i < g.pixcountx
    requires !(ParticleBox(g, k, p).cols.lo <= i < ParticleBox(g, k, p).cols.hi)
    ensures !((p.x - RadKern(k, p) - g.xmin) / g.pixwidthx < Mid(i) < (p.x + RadKern(k, p) - g.xmin) / g.pixwidthx)
  {
  }

  lemma ColumnFar(g: Grid, k: Kernel, p: Particle, i: int)
    requires Admissible(p) && g.pixwidthx > 0.0 && k.radkernel > 0.0
    requires !((p.x - RadKern(k, p) - g.xmin) / g.pixwidthx < Mid(i) < (p.x + RadKern(k, p) - g.xmin) / g.pixwidthx)
    ensures Sq(XCenter(g, i) - p.x) >= Sq(RadKern(k, p))
  {
    PositiveProduct(k.radkernel, p.h);
    OutsideSupport(Mid(i), p.x, RadKern(k, p), g.xmin, g.pixwidthx, XCenter(g, i) - p.x);
  }

  /** The same for a row outside the box. */
  lemma RowOutsideBox(g: Grid, k: Kernel, p: Particle, j: int)
    requires g.pixwidthx > 0.0 && g.pixwidthy > 0.0 && 0 <= j < g.pixcounty
    requires !(ParticleBox(g, k, p).rows.lo <= j < ParticleBox(g, k, p).rows.hi)
    ensures !((p.y - RadKern(k, p) - g.ymin) / g.pixwidthy < Mid(j) < (p.y + RadKern(k, p) - g.ymin) / g.pixwidthy)
  {
  }

  lemma RowFar(g: Grid, k: Kernel, p: Particle, j: int)
    requires Admissible(p) && g.pixwidthy > 0.0 && k.radkernel > 0.0
    requires !((p.y - RadKern(k, p) - g.ymin) / g.pixwidthy < Mid(j) < (p.y + RadKern(k, p) - g.ymin) / g.pixwidthy)
    ensures Sq(YCenter(g, j) - p.y) >= Sq(RadKern(k, p))
  {
    PositiveProduct(k.radkernel, p.h);
    OutsideSupport(Mid(j), p.y, RadKern(k, p), g.ymin, g.pixwidthy, YCenter(g, j) - p.y);
  }

  /** A squared distance of at least the squared support radius is, in units
      of h, at least the kernel's squared radius. */
  lemma ScaledRadius(k: Kernel, p: Particle, d2: real)
    requires Admissible(p) && d2 >= Sq(RadKern(k, p))
    ensures d2 * Hi21(p) >= Sq(k.radkernel)
  {
    assert 1.0 / p.h > 0.0;
    ProductAtLeast(d2, Sq(RadKern(k, p)), Hi21(p));
    KernelRadiusScaled(k, p);
  }

  /** A pixel centre whose pixel coordinate m lies outside the open support
      interval is at least r away from the particle. */
  lemma OutsideSupport(m: real, pos: real, r: real, origin: real, width: real, d: real)
    requires width > 0.0 && r > 0.0
    requires !((pos - r - origin) / width < m < (pos + r - origin) / width)
    requires d == origin + m * width - pos
    ensures Sq(d) >= Sq(r)
  {
    if m <= (pos - r - origin) / width {
      assert (pos - r - origin) / width * width == pos - r - origin;
      ProductMonotoneRight(m, (pos - r - origin) / width, width);
      SqNegate(d);
      SqMonotone(r, -d);
    } else {
      assert (pos + r - origin) / width * width == pos + r - origin;
      ProductMonotoneRight((pos + r - origin) / width, m, width);
      SqMonotone(r, d);
    }
  }

  lemma ProductAtLeast(a: real, b: real, c: real)
    requires a >= b && c > 0.0
    ensures a * c >= b * c
  {
  }

  lemma ProductNonNegative(a: real, c: real)
    requires a >= 0.0 && c > 0.0
    ensures a * c >= 0.0
  {
  }

  /** In units of h, the scaled support radius is the kernel's radius. */
  lemma KernelRadiusScaled(k: Kernel, p: Particle)
    requires Admissible(p)
    ensures Sq(RadKern(k, p)) * Hi21(p) == Sq(k.radkernel)
  {
    SqProduct(k.radkernel, p.h);
    Hi21Scales(p);
    ProductAssociates(Sq(k.radkernel), Sq(p.h), Hi21(p));
  }

  lemma ProductAssociates(a: real, b: real, c: real)
    ensures (a * b) * c == a * (b * c)
  {
  }

  /** The image does not depend on the order in which the particles are
      visited (with exact arithmetic): any reordering gives the same pixels. */
  lemma ImageIndependentOfOrder(ps: seq<Particle>, qs: seq<Particle>, g: Grid, k: Kernel, j: int, i: int)
    requires multiset(ps) == multiset(qs)
    ensures ImageAt(ps, g, k, j, i) == ImageAt(qs, g, k, j, i)
  {
    TotalPermutation(ps, qs, CellContribution(g, k, j, i));
  }

  /** Splatting two batches of particles one after the other adds their images. */
  lemma ImageSuperposition(ps: seq<Particle>, qs: seq<Particle>, g: Grid, k: Kernel, j: int, i: int)
    ensures ImageAt(ps + qs, g, k, j, i) == ImageAt(ps, g, k, j, i) + ImageAt(qs, g, k, j, i)
  {
    TotalConcat(ps, qs, CellContribution(g, k, j, i));
  }

  /** A skipped particle (weight not positive) leaves every pixel as it was. */
  lemma SkippedParticleChangesNothing(ps: seq<Particle>, p: Particle, g: Grid, k: Kernel, j: int, i: int)
    requires !Splatted(g, p)
    ensures ImageAt(ps + [p], g, k, j, i) == ImageAt(ps, g, k, j, i)
  {
    TotalSnoc(ps, p, CellContribution(g, k, j, i));
  }

  function SplattedIn(g: Grid): Particle -> bool
  {
    p => Splatted(g, p)
  }

  /** The image is made by the splatted particles alone: dropping every
      skipped particle from the table leaves every pixel as it was. */
  lemma OnlySplattedParticlesCount(ps: seq<Particle>, g: Grid, k: Kernel, j: int, i: int)
    ensures ImageAt(Pick(ps, Where(ps, SplattedIn(g))), g, k, j, i) == ImageAt(ps, g, k, j, i)
  {
    TotalWhere(ps, SplattedIn(g), CellContribution(g, k, j, i));
  }

  /** What a splatted particle would deposit at pixel (j, i) without the
      bounding box. */
  function UnclippedContribution(g: Grid, k: Kernel, p: Particle, j: int, i: int): real
  {
    if Splatted(g, p) then Deposit(g, k, p, j, i) else 0.0
  }

  function UnclippedCell(g: Grid, k: Kernel, j: int, i: int): Particle -> real
  {
    p => UnclippedContribution(g, k, p, j, i)
  }

  /** The bounding box is only an optimisation: for a kernel that vanishes
      outside its support, every pixel of the image equals the sum of the
      kernel contributions of all splatted particles, box or no box. */
  lemma ImageIsUnclippedSum(ps: seq<Particle>, g: Grid, k: Kernel, j: int, i: int)
    requires CompactSupport(k)
    requires 0 <= j < g.pixcounty && 0 <= i < g.pixcountx
    ensures ImageAt(ps, g, k, j, i) == Total(ps, UnclippedCell(g, k, j, i))
  {
    forall n | 0 <= n < |ps|
      ensures CellContribution(g, k, j, i)(ps[n]) == UnclippedCell(g, k, j, i)(ps[n])
    {
      var p := ps[n];
      if Splatted(g, p) && !InBox(ParticleBox(g, k, p), j, i) {
        BoxLosesNothing(g, k, p, j, i);
      }
    }
    TotalPointwise(ps, CellContribution(g, k, j, i), UnclippedCell(g, k, j, i));
  }
}
