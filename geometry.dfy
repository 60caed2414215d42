/** Points and vectors of R^3 as the feature rules use numpy 3-arrays:
    component-wise sums, differences, scalar multiples, and the affine
    interpolation `scale * a + (1 - scale) * b` that every heterogeneous
    profile uses to place its extra vertex. Floating point is replaced by
    `real`. */
module Geometry {

  datatype Point = Point(x: real, y: real, z: real)

  const Origin: Point := Point(0.0, 0.0, 0.0)

  /** Python's `math.pi`, the double nearest to pi, read as an exact real. */
  const PI: real := 3.141592653589793

  function Add(p: Point, q: Point): Point {
    Point(p.x + q.x, p.y + q.y, p.z + q.z)
  }

  function Sub(p: Point, q: Point): Point {
    Point(p.x - q.x, p.y - q.y, p.z - q.z)
  }

  function Scale(k: real, p: Point): Point {
    Point(k * p.x, k * p.y, k * p.z)
  }

  function Dot(p: Point, q: Point): real {
    p.x * q.x + p.y * q.y + p.z * q.z
  }

  /** `np.cross`. */
  function Cross(p: Point, q: Point): Point {
    Point(p.y * q.z - p.z * q.y, p.z * q.x - p.x * q.z, p.x * q.y - p.y * q.x)
  }

  /** `[scale * x + (1 - scale) * y for x, y in zip(a, b)]`. */
  function Lerp(scale: real, a: Point, b: Point): Point {
    Point(scale * a.x + (1.0 - scale) * b.x,
          scale * a.y + (1.0 - scale) * b.y,
          scale * a.z + (1.0 - scale) * b.z)
  }

  /** `(a + b) / 2`: the point as far from `a` as `b` is from it. */
  function Midpoint(a: Point, b: Point): (m: Point)
    ensures Sub(m, a) == Sub(b, m)
  {
    Point((a.x + b.x) / 2.0, (a.y + b.y) / 2.0, (a.z + b.z) / 2.0)
  }

  /** `(bound[0] + bound[1] + bound[2] + bound[3]) / 4`. */
  function Centroid(bound: seq<Point>): Point
    requires |bound| >= 4
  {
    Point((bound[0].x + bound[1].x + bound[2].x + bound[3].x) / 4.0,
          (bound[0].y + bound[1].y + bound[2].y + bound[3].y) / 4.0,
          (bound[0].z + bound[1].z + bound[2].z + bound[3].z) / 4.0)
  }

  /** On a parallelogram `bound[0..3]` (opposite sides equal as vectors) the
      corners' average is the common midpoint of both diagonals: the
      region's centre. */
  lemma CentroidOfParallelogram(bound: seq<Point>)
    requires |bound| >= 4
    requires Sub(bound[0], bound[1]) == Sub(bound[3], bound[2])
    ensures Centroid(bound) == Midpoint(bound[0], bound[2])
    ensures Centroid(bound) == Midpoint(bound[1], bound[3])
  {
    assert bound[0].x - bound[1].x == bound[3].x - bound[2].x;
    assert bound[0].y - bound[1].y == bound[3].y - bound[2].y;
    assert bound[0].z - bound[1].z == bound[3].z - bound[2].z;
  }

  /** Python's `min` on two numbers. */
  function Min(a: real, b: real): (m: real)
    ensures m <= a && m <= b
    ensures m == a || m == b
  {
    if a <= b then a else b
  }

  /** The range of `random.uniform(0.1, 0.9)`, the draw that places every
      interpolated vertex. */
  predicate IsScale(scale: real) {
    0.1 <= scale <= 0.9
  }

  /** A circle as `gp_Circ(gp_Ax2(center, gp_Dir(axis)), radius)`. The axis is
      the vector handed to `gp_Dir`, which normalises it inside the kernel. */
  datatype Circle = Circle(center: Point, axis: Point, radius: real)

  /** A point strictly inside the segment from `b` to `a` (0 < scale < 1)
      differs from both endpoints when they differ. */
  lemma LerpAvoidsEndpoints(scale: real, a: Point, b: Point)
    requires 0.0 < scale < 1.0
    requires a != b
    ensures Lerp(scale, a, b) != a
    ensures Lerp(scale, a, b) != b
  {
    var p := Lerp(scale, a, b);
    if p == a {
      FixedByLerp(scale, a.x, b.x);
      FixedByLerp(scale, a.y, b.y);
      FixedByLerp(scale, a.z, b.z);
    }
    if p == b {
      FixedByLerp(1.0 - scale, b.x, a.x);
      FixedByLerp(1.0 - scale, b.y, a.y);
      FixedByLerp(1.0 - scale, b.z, a.z);
    }
  }

  /** One coordinate of an interpolation that lands on its first endpoint. */
  lemma FixedByLerp(s: real, u: real, v: real)
    requires s != 1.0
    requires s * u + (1.0 - s) * v == u
    ensures u == v
  {
    assert (1.0 - s) * (v - u) == (1.0 - s) * v - (1.0 - s) * u;
    assert (1.0 - s) * u == u - s * u;
    ProductIsZero(1.0 - s, v - u);
  }

  lemma ProductIsZero(x: real, y: real)
    requires x * y == 0.0
    requires x != 0.0
    ensures y == 0.0
  {
    assert y == (x * y) / x;
  }

  /** The interpolated vertex lies on the line through `b` in direction
      `a - b`, at fraction `scale`. */
  lemma LerpIsOffset(scale: real, a: Point, b: Point)
    ensures Lerp(scale, a, b) == Add(b, Scale(scale, Sub(a, b)))
  {
  }

  /** Moving from `c` by `x` and measuring from `c` gives back `x`. */
  lemma SubAddCancel(c: Point, x: Point)
    ensures Sub(Add(c, x), c) == x
  {
  }

  /** Interpolating from the other end with the complementary fraction gives
      the same point. */
  lemma LerpSwap(scale: real, a: Point, b: Point)
    ensures Lerp(scale, a, b) == Lerp(1.0 - scale, b, a)
  {
  }

  /** Lengths scale quadratically. */
  lemma DotScale(k: real, v: Point)
    ensures Dot(Scale(k, v), Scale(k, v)) == k * k * Dot(v, v)
  {
    calc {
      Dot(Scale(k, v), Scale(k, v));
      (k * v.x) * (k * v.x) + (k * v.y) * (k * v.y) + (k * v.z) * (k * v.z);
      k * k * (v.x * v.x) + k * k * (v.y * v.y) + k * k * (v.z * v.z);
      k * k * Dot(v, v);
    }
  }

  /** The dot product is linear in its first argument. */
  lemma DotLinear(a: real, u: Point, b: real, v: Point, w: Point)
    ensures Dot(Add(Scale(a, u), Scale(b, v)), w) == a * Dot(u, w) + b * Dot(v, w)
  {
    assert (a * u.x + b * v.x) * w.x == a * (u.x * w.x) + b * (v.x * w.x);
    assert (a * u.y + b * v.y) * w.y == a * (u.y * w.y) + b * (v.y * w.y);
    assert (a * u.z + b * v.z) * w.z == a * (u.z * w.z) + b * (v.z * w.z);
  }

  /** A scalar factor moves out of the dot product. */
  lemma DotScaleLeft(a: real, u: Point, w: Point)
    ensures Dot(Scale(a, u), w) == a * Dot(u, w)
  {
    assert (a * u.x) * w.x == a * (u.x * w.x);
    assert (a * u.y) * w.y == a * (u.y * w.y);
    assert (a * u.z) * w.z == a * (u.z * w.z);
  }

  /** Splitting the segment from `a` to `b` at an interpolated point does not
      change the sum of the cross products along it (the shoelace term). */
  lemma CrossThroughLerp(scale: real, a: Point, b: Point)
    ensures Add(Cross(a, Lerp(scale, a, b)), Cross(Lerp(scale, a, b), b)) == Cross(a, b)
  {
    var p := Lerp(scale, a, b);
    CrossTermThroughLerp(scale, a.y, a.z, b.y, b.z, p.z, p.y);
    CrossTermThroughLerp(scale, a.z, a.x, b.z, b.x, p.x, p.z);
    CrossTermThroughLerp(scale, a.x, a.y, b.x, b.y, p.y, p.x);
  }

  /** One coordinate of `CrossThroughLerp`; `lp`, `lq` are the interpolated
      point's coordinates. */
  lemma CrossTermThroughLerp(s: real, p: real, q: real, u: real, v: real, lq: real, lp: real)
    requires lq == s * q + (1.0 - s) * v
    requires lp == s * p + (1.0 - s) * u
    ensures (p * lq - q * lp) + (lp * v - lq * u) == p * v - q * u
  {
    assert p * lq == s * (p * q) + (1.0 - s) * (p * v);
    assert q * lp == s * (p * q) + (1.0 - s) * (q * u);
    assert lp * v == s * (p * v) + (1.0 - s) * (u * v);
    assert lq * u == s * (q * u) + (1.0 - s) * (u * v);
    assert (1.0 - s) * (p * v - q * u) + s * (p * v - q * u) == p * v - q * u;
  }
}
