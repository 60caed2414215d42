/** `Features/six_sides_passage.py` (feature name `6sides_passage`): a
    hexagonal passage through the stock, its corners on the circle
    inscribed in the region. */
module SixSidesPassage {
  import opened Geometry
  import opened Polygon
  import opened Descriptors
  import opened Kernel
  import opened Region

  /** The fields `SixSidesPassage.__init__` sets. */
  const Descriptor: FeatureDescriptor := FeatureDescriptor(4, 4, Through, "6sides_passage")

  /** `ang1` drawn in `[0, pi / 3]` and each next angle `pi / 3` further on:
      six corners a sixth of a turn apart, all within the first turn, no two
      at the same place on the circle. */
  function HexagonAngles(ang1: real): (a: seq<real>)
    requires 0.0 <= ang1 <= PI / 3.0
    ensures |a| == 6 && a[0] == ang1
    ensures forall i :: 0 <= i < 5 ==> a[i + 1] - a[i] == PI / 3.0
    ensures 0.0 <= a[0] && a[5] <= 2.0 * PI
    ensures forall i, j :: 0 <= i < j < 6 ==> 0.0 < a[j] - a[i] < 2.0 * PI
  {
    var step := PI / 3.0;
    [ang1, ang1 + step, ang1 + 2.0 * step, ang1 + 3.0 * step, ang1 + 4.0 * step, ang1 + 5.0 * step]
  }

  /** Any two hexagon angles are less than a turn apart. */
  lemma HexagonAnglesApart(ang1: real)
    requires 0.0 <= ang1 <= PI / 3.0
    ensures ApartWithinTurn(HexagonAngles(ang1))
  {
    var a := HexagonAngles(ang1);
    forall i, j | 0 <= i < 6 && 0 <= j < 6 && i != j
      ensures 0.0 < a[j] - a[i] < 2.0 * PI || 0.0 < a[i] - a[j] < 2.0 * PI
    {
      if i > j {
        assert 0.0 < a[i] - a[j] < 2.0 * PI;
      }
    }
  }

  /** The canonical hexagon: `circ.Value(ang_i)` for the six angles on the
      region's inscribed circle. On a kernel whose circle values lie on their
      circle, the six corners lie on the inscribed circle; on an inscribed
      circle of positive radius and a kernel whose circle values do not
      repeat within a turn, they are pairwise distinct, because their angles
      are less than a turn apart. */
  function Hexagon(k: Oracle, bound: seq<Point>, ang1: real): (r: seq<Point>)
    requires |bound| >= 4 && 0.0 <= ang1 <= PI / 3.0
    ensures |r| == 6
    ensures forall i :: 0 <= i < 6 ==> r[i] == k.circleValue(Incircle(k, bound), HexagonAngles(ang1)[i])
    ensures var c := Incircle(k, bound);
            CircleValueOnCircle(k) ==>
              forall i :: 0 <= i < 6 ==> Dot(Sub(r[i], c.center), Sub(r[i], c.center)) == c.radius * c.radius
    ensures CircleValueOneTurn(k) && Incircle(k, bound).radius > 0.0 ==>
              forall i, j :: 0 <= i < j < 6 ==> r[i] != r[j]
  {
    var circ := Incircle(k, bound);
    var a := HexagonAngles(ang1);
    HexagonAnglesApart(ang1);
    CircleValuesOnCircle(k, circ, a);
    CircleValuesDistinct(k, circ, a);
    [k.circleValue(circ, a[0]), k.circleValue(circ, a[1]), k.circleValue(circ, a[2]),
     k.circleValue(circ, a[3]), k.circleValue(circ, a[4]), k.circleValue(circ, a[5])]
  }

  /** The six branches on `num`: side `num` of the six-vertex outline `p`,
      from `p[num]` to the next vertex, split at `scale`. */
  function SplitSide(p: seq<Point>, scale: real, num: nat): (r: seq<Point>)
    requires |p| == 6 && num <= 5
    ensures r == SplitEdge(p, num, scale)
  {
    if num == 0 then [p[0], Lerp(scale, p[0], p[1]), p[1], p[2], p[3], p[4], p[5]]
    else if num == 1 then [p[0], p[1], Lerp(scale, p[1], p[2]), p[2], p[3], p[4], p[5]]
    else if num == 2 then [p[0], p[1], p[2], Lerp(scale, p[2], p[3]), p[3], p[4], p[5]]
    else if num == 3 then [p[0], p[1], p[2], p[3], Lerp(scale, p[3], p[4]), p[4], p[5]]
    else if num == 4 then [p[0], p[1], p[2], p[3], p[4], Lerp(scale, p[4], p[5]), p[5]]
    else [p[0], p[1], p[2], p[3], p[4], p[5], Lerp(scale, p[5], p[0])]
  }

  /** `_add_sketch(bound, hetero)` with the draws `ang1`, `scale` and
      `num = random.randint(0, 5)` as parameters: the hexagon with side `num`
      split at `scale`; any of the six sides can be chosen. */
  function AddSketch(k: Oracle, bound: seq<Point>, hetero: bool, ang1: real, scale: real, num: nat): (r: seq<Point>)
    requires |bound| >= 4 && 0.0 <= ang1 <= PI / 3.0
    requires hetero ==> IsScale(scale) && num <= 5
    ensures !hetero ==> r == Hexagon(k, bound, ang1)
    ensures hetero ==> r == SplitEdge(Hexagon(k, bound, ang1), num, scale)
  {
    var p := Hexagon(k, bound, ang1);
    if hetero then SplitSide(p, scale, num) else p
  }

  /** On a region with two proper sides and such a kernel, the heterogeneous
      profile's extra vertex is a new corner: it differs from both ends of
      the side it splits. */
  lemma HeteroHexagonGainsCorner(k: Oracle, bound: seq<Point>, ang1: real, scale: real, num: nat)
    requires |bound| >= 4 && 0.0 <= ang1 <= PI / 3.0 && IsScale(scale) && num <= 5
    requires EuclideanNorm(k) && CircleValueOneTurn(k)
    requires bound[2] != bound[1] && bound[0] != bound[1]
    ensures var p := Hexagon(k, bound, ang1);
            var r := AddSketch(k, bound, true, ang1, scale, num);
            r[num + 1] != p[num] && r[num + 1] != Succ(p, num)
  {
    var p := Hexagon(k, bound, ang1);
    IncircleRadiusPositive(k, bound);
    assert p[num] != Succ(p, num);
    SplitEdgeAddsCorner(p, num, scale);
  }
}
