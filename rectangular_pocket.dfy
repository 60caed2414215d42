/** `Features/rectangular_pocket.py`: a pocket cut to a floor inside a fully
    enclosed four-sided region. */
module RectangularPocket {
  import opened Geometry
  import opened Polygon
  import opened Descriptors

  /** The fields `RectangularPocket.__init__` sets. */
  const Descriptor: FeatureDescriptor := FeatureDescriptor(4, 4, Blind, "rectangular_pocket")

  /** `_add_sketch(bound, hetero)`: the vertex list handed to `face_polygon`.
      The draws `scale = random.uniform(0.1, 0.9)` and
      `num = random.randint(0, 3)` are parameters. The heterogeneous profile is
      the region's quadrilateral with edge `num` split at `scale`; any of the
      four edges can be chosen. */
  function AddSketch(bound: seq<Point>, hetero: bool, scale: real, num: nat): (r: seq<Point>)
    requires |bound| >= 4
    requires hetero ==> IsScale(scale) && num <= 3
    ensures !hetero ==> r == [bound[0], bound[1], bound[2], bound[3]]
    ensures hetero ==> r == SplitEdge(bound[..4], num, scale)
  {
    if hetero then
      if num == 0 then [bound[0], Lerp(scale, bound[0], bound[1]), bound[1], bound[2], bound[3]]
      else if num == 1 then [bound[0], bound[1], Lerp(scale, bound[1], bound[2]), bound[2], bound[3]]
      else if num == 2 then [bound[0], bound[1], bound[2], Lerp(scale, bound[2], bound[3]), bound[3]]
      else [bound[0], bound[1], bound[2], bound[3], Lerp(scale, bound[3], bound[0])]
    else
      bound[..4]
  }

  /** With `scale = 0.5` the extra vertex is the midpoint of the split edge;
      for the region (2,2,0), (2,8,0), (8,8,0), (8,2,0) and `num = 0` it is
      (2,5,0). */
  lemma HalfScaleSplitsAtMidpoint(bound: seq<Point>, num: nat)
    requires |bound| >= 4 && num <= 3
    ensures AddSketch(bound, true, 0.5, num)[num + 1] == Midpoint(bound[num], Succ(bound[..4], num))
    ensures bound[..4] == [Point(2.0, 2.0, 0.0), Point(2.0, 8.0, 0.0), Point(8.0, 8.0, 0.0), Point(8.0, 2.0, 0.0)]
            ==> AddSketch(bound, true, 0.5, 0)
                == [bound[0], Point(2.0, 5.0, 0.0), bound[1], bound[2], bound[3]]
  {
    assert bound[..4][num] == bound[num];
  }

  /** With distinct endpoints, the inserted vertex differs from both
      neighbours. */
  lemma InsertedVertexIsNew(bound: seq<Point>, scale: real, num: nat)
    requires |bound| >= 4 && IsScale(scale) && num <= 3
    requires bound[num] != Succ(bound[..4], num)
    ensures var r := AddSketch(bound, true, scale, num);
            r[num + 1] != bound[num] && r[num + 1] != Succ(bound[..4], num)
  {
    assert bound[..4][num] == bound[num];
    SplitEdgeAddsCorner(bound[..4], num, scale);
  }

  /** The worked pocket region: (2,2,0), (2,8,0), (8,8,0), (8,2,0). */
  predicate IsWorkedRegion(b: seq<Point>) {
    && |b| == 4
    && b[0] == Point(2.0, 2.0, 0.0) && b[1] == Point(2.0, 8.0, 0.0)
    && b[2] == Point(8.0, 8.0, 0.0) && b[3] == Point(8.0, 2.0, 0.0)
  }

  /** The shoelace sum of a quadrilateral written out. */
  lemma QuadArea(a: Point, b: Point, c: Point, d: Point)
    ensures VectorArea2([a, b, c, d])
         == Add(Add(Cross(a, b), Add(Cross(b, c), Add(Cross(c, d), Origin))), Cross(d, a))
  {
    var s := [a, b, c, d];
    assert s[1..] == [b, c, d] && [b, c, d][1..] == [c, d] && [c, d][1..] == [d];
    assert CrossChain([d]) == Origin;
    assert CrossChain([c, d]) == Add(Cross(c, d), Origin);
    assert CrossChain([b, c, d]) == Add(Cross(b, c), CrossChain([c, d]));
    assert CrossChain(s) == Add(Cross(a, b), CrossChain([b, c, d]));
  }

  /** The cross product of two points of the plane z = 0 points along z. */
  lemma PlanarCross(px: real, py: real, qx: real, qy: real)
    ensures Cross(Point(px, py, 0.0), Point(qx, qy, 0.0)) == Point(0.0, 0.0, px * qy - py * qx)
  {
  }

  /** A quadrilateral whose four shoelace terms all point along z. */
  lemma QuadAreaAlongZ(a: Point, b: Point, c: Point, d: Point, z1: real, z2: real, z3: real, z4: real)
    requires Cross(a, b) == Point(0.0, 0.0, z1) && Cross(b, c) == Point(0.0, 0.0, z2)
    requires Cross(c, d) == Point(0.0, 0.0, z3) && Cross(d, a) == Point(0.0, 0.0, z4)
    ensures VectorArea2([a, b, c, d]) == Point(0.0, 0.0, z1 + z2 + z3 + z4)
  {
    QuadArea(a, b, c, d);
  }

  /** The worked region's shoelace vector is (0, 0, -72): area 36, wound
      clockwise seen from +z. */
  lemma WorkedRegionArea(b: seq<Point>)
    requires IsWorkedRegion(b)
    ensures VectorArea2(b) == Point(0.0, 0.0, -72.0)
  {
    assert b == [b[0], b[1], b[2], b[3]];
    PlanarCross(2.0, 2.0, 2.0, 8.0);
    PlanarCross(2.0, 8.0, 8.0, 8.0);
    PlanarCross(8.0, 8.0, 8.0, 2.0);
    PlanarCross(8.0, 2.0, 2.0, 2.0);
    QuadAreaAlongZ(b[0], b[1], b[2], b[3], 12.0, -48.0, -48.0, 12.0);
  }

  /** The worked pocket on the square stock: the canonical profile is exactly
      the region's four corners, area 36, and every heterogeneous variant
      encloses the same area with the same winding. */
  lemma WorkedExampleArea(bound: seq<Point>, scale: real, num: nat)
    requires IsWorkedRegion(bound) && IsScale(scale) && num <= 3
    ensures AddSketch(bound, false, scale, num) == bound
    ensures VectorArea2(AddSketch(bound, false, scale, num)) == Point(0.0, 0.0, -72.0)
    ensures VectorArea2(AddSketch(bound, true, scale, num)) == Point(0.0, 0.0, -72.0)
  {
    assert bound[..4] == bound;
    WorkedRegionArea(bound);
    SplitEdgeKeepsArea(bound, num, scale);
  }
}
