/** `Features/rectangular_through_step.py`: a step across the stock. Its
    `depth_type` is `"blind"`, as the class sets it. */
module RectangularThroughStep {
  import opened Geometry
  import opened Polygon
  import opened Descriptors

  /** The fields `RectangularThroughStep.__init__` sets. */
  const Descriptor: FeatureDescriptor := FeatureDescriptor(3, 3, Blind, "rectangular_through_step")

  /** `_add_sketch(bound, hetero)` with the draw `scale` in [0.1, 0.9] as a
      parameter: only the closing edge from `bound[3]` back to `bound[0]` is
      split, so the first four vertices are the canonical ones. */
  function AddSketch(bound: seq<Point>, hetero: bool, scale: real): (r: seq<Point>)
    requires |bound| >= 4
    requires hetero ==> IsScale(scale)
    ensures !hetero ==> r == [bound[0], bound[1], bound[2], bound[3]]
    ensures hetero ==> r == SplitEdge(bound[..4], 3, scale) && r[..4] == bound[..4]
  {
    if hetero then
      [bound[0], bound[1], bound[2], bound[3], Lerp(scale, bound[3], bound[0])]
    else
      bound[..4]
  }

  /** The three sides other than the closing one stay whole edges. */
  lemma OtherSidesKept(bound: seq<Point>, scale: real)
    requires |bound| >= 4 && IsScale(scale)
    ensures HasEdge(AddSketch(bound, true, scale), bound[0], bound[1])
    ensures HasEdge(AddSketch(bound, true, scale), bound[1], bound[2])
    ensures HasEdge(AddSketch(bound, true, scale), bound[2], bound[3])
  {
    SplitEdgeKeepsOtherEdges(bound[..4], 3, scale, 0);
    SplitEdgeKeepsOtherEdges(bound[..4], 3, scale, 1);
    SplitEdgeKeepsOtherEdges(bound[..4], 3, scale, 2);
  }
}
