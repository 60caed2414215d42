/** `Features/rectangular_blind_step.py`: a step cut to a floor in a corner
    region, two of whose sides (`bound[0]`..`bound[1]` and
    `bound[1]`..`bound[2]`) lie on the stock's faces. */
module RectangularBlindStep {
  import opened Geometry
  import opened Polygon
  import opened Descriptors

  /** The fields `RectangularBlindStep.__init__` sets. */
  const Descriptor: FeatureDescriptor := FeatureDescriptor(2, 2, Blind, "rectangular_blind_step")

  /** `_add_sketch(bound, hetero)` with the draws `scale` in [0.1, 0.9] and
      `num = random.randint(0, 1)` as parameters: `num = 0` splits edge 2,
      `num = 1` edge 3. */
  function AddSketch(bound: seq<Point>, hetero: bool, scale: real, num: nat): (r: seq<Point>)
    requires |bound| >= 4
    requires hetero ==> IsScale(scale) && num <= 1
    ensures !hetero ==> r == [bound[0], bound[1], bound[2], bound[3]]
    ensures hetero ==> r == SplitEdge(bound[..4], num + 2, scale)
  {
    if hetero then
      if num == 0 then [bound[0], bound[1], bound[2], Lerp(scale, bound[2], bound[3]), bound[3]]
      else [bound[0], bound[1], bound[2], bound[3], Lerp(scale, bound[3], bound[0])]
    else
      bound[..4]
  }

  /** The two sides on the stock's faces stay whole edges. */
  lemma StockSidesKept(bound: seq<Point>, scale: real, num: nat)
    requires |bound| >= 4 && IsScale(scale) && num <= 1
    ensures HasEdge(AddSketch(bound, true, scale, num), bound[0], bound[1])
    ensures HasEdge(AddSketch(bound, true, scale, num), bound[1], bound[2])
  {
    SplitEdgeKeepsOtherEdges(bound[..4], num + 2, scale, 0);
    SplitEdgeKeepsOtherEdges(bound[..4], num + 2, scale, 1);
  }
}
