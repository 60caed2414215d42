/** Quantities that several feature rules derive from the bounding region
    `bound` in the same way: the side vectors from `bound[1]`, their lengths
    and directions, and the circle inscribed at the corners' average. */
module Region {
  import opened Geometry
  import opened Kernel

  /** `np.linalg.norm(bound[2] - bound[1])`. */
  function Width(k: Oracle, bound: seq<Point>): real
    requires |bound| >= 3
  {
    k.norm(Sub(bound[2], bound[1]))
  }

  /** `np.linalg.norm(bound[0] - bound[1])`. */
  function Height(k: Oracle, bound: seq<Point>): real
    requires |bound| >= 3
  {
    k.norm(Sub(bound[0], bound[1]))
  }

  /** `dir_w = (bound[2] - bound[1]) / width`. */
  function DirW(k: Oracle, bound: seq<Point>): Point
    requires |bound| >= 3
  {
    k.unit(Sub(bound[2], bound[1]))
  }

  /** `dir_h = (bound[0] - bound[1]) / height`. */
  function DirH(k: Oracle, bound: seq<Point>): Point
    requires |bound| >= 3
  {
    k.unit(Sub(bound[0], bound[1]))
  }

  /** `v / n` scaled back by `n` is `v`. */
  lemma ScaleInverse(n: real, v: Point)
    requires n != 0.0
    ensures Scale(n, Scale(1.0 / n, v)) == v
  {
    assert n * (1.0 / n) == 1.0;
    assert n * ((1.0 / n) * v.x) == (n * (1.0 / n)) * v.x;
    assert n * ((1.0 / n) * v.y) == (n * (1.0 / n)) * v.y;
    assert n * ((1.0 / n) * v.z) == (n * (1.0 / n)) * v.z;
  }

  /** Under Euclidean norms a non-zero vector is its length times its unit
      vector, and that unit vector has length one. */
  lemma LengthTimesUnit(k: Oracle, v: Point)
    requires EuclideanNorm(k) && NormalizedUnits(k)
    requires v != Origin
    ensures Dot(k.unit(v), k.unit(v)) == 1.0 && Scale(k.norm(v), k.unit(v)) == v
  {
    UnitHasLengthOne(k, v);
    ScaleInverse(k.norm(v), v);
  }

  /** Under Euclidean norms, on a region with two proper sides, `dir_w` and
      `dir_h` are unit vectors and `width * dir_w`, `height * dir_h` give
      back the two sides from `bound[1]`. */
  lemma SidesFromDirections(k: Oracle, bound: seq<Point>)
    requires |bound| >= 3
    requires EuclideanNorm(k) && NormalizedUnits(k)
    requires bound[2] != bound[1] && bound[0] != bound[1]
    ensures Dot(DirW(k, bound), DirW(k, bound)) == 1.0 && Dot(DirH(k, bound), DirH(k, bound)) == 1.0
    ensures Scale(Width(k, bound), DirW(k, bound)) == Sub(bound[2], bound[1])
    ensures Scale(Height(k, bound), DirH(k, bound)) == Sub(bound[0], bound[1])
  {
    var w, h := Sub(bound[2], bound[1]), Sub(bound[0], bound[1]);
    assert w != Origin by {
      assert bound[2].x - bound[1].x == w.x && bound[2].y - bound[1].y == w.y && bound[2].z - bound[1].z == w.z;
    }
    assert h != Origin by {
      assert bound[0].x - bound[1].x == h.x && bound[0].y - bound[1].y == h.y && bound[0].z - bound[1].z == h.z;
    }
    LengthTimesUnit(k, w);
    LengthTimesUnit(k, h);
  }

  /** The circle of the blind hole and of both passages: centred at the
      average of the four corners, axis `dir_w × dir_h`, radius
      `min(width / 2, height / 2)` -- the largest radius that both half-sides
      allow. */
  function Incircle(k: Oracle, bound: seq<Point>): (c: Circle)
    requires |bound| >= 4
    ensures c.radius <= Width(k, bound) / 2.0 && c.radius <= Height(k, bound) / 2.0
    ensures c.radius == Width(k, bound) / 2.0 || c.radius == Height(k, bound) / 2.0
  {
    Circle(Centroid(bound), Cross(DirW(k, bound), DirH(k, bound)),
           Min(Width(k, bound) / 2.0, Height(k, bound) / 2.0))
  }

  /** Under a Euclidean norm a region with two proper sides gets a circle of
      positive radius. */
  lemma IncircleRadiusPositive(k: Oracle, bound: seq<Point>)
    requires |bound| >= 4
    requires EuclideanNorm(k)
    requires bound[2] != bound[1] && bound[0] != bound[1]
    ensures Incircle(k, bound).radius > 0.0
  {
  }
}
