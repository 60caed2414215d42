/** `Features/triangular_blind_step.py`: a triangular step cut to a floor
    in the corner `bound[0]`, `bound[1]`, `bound[2]` of a corner region. */
module TriangularBlindStep {
  import opened Geometry
  import opened Polygon
  import opened Descriptors

  /** The fields `TriangularBlindStep.__init__` sets. */
  const Descriptor: FeatureDescriptor := FeatureDescriptor(2, 2, Blind, "triangular_blind_step")

  /** `_add_sketch(bound, hetero)` with the draw `scale` in [0.1, 0.9] as a
      parameter. The extra vertex `scale * bound[0] + (1 - scale) * bound[2]`
      splits the hypotenuse from `bound[2]` back to `bound[0]`, which as an
      edge of the triangle is the split at `1 - scale`. */
  function AddSketch(bound: seq<Point>, hetero: bool, scale: real): (r: seq<Point>)
    requires |bound| >= 3
    requires hetero ==> IsScale(scale)
    ensures !hetero ==> r == [bound[0], bound[1], bound[2]]
    ensures hetero ==> r == SplitEdge(bound[..3], 2, 1.0 - scale) && r[..3] == bound[..3]
  {
    if hetero then
      LerpSwap(scale, bound[0], bound[2]);
      [bound[0], bound[1], bound[2], Lerp(scale, bound[0], bound[2])]
    else
      [bound[0], bound[1], bound[2]]
  }

  /** The two legs on the stock's faces stay whole edges, and the extra
      vertex is a new corner inside the hypotenuse when that has length. */
  lemma HypotenuseSplit(bound: seq<Point>, scale: real)
    requires |bound| >= 3 && IsScale(scale)
    ensures HasEdge(AddSketch(bound, true, scale), bound[0], bound[1])
    ensures HasEdge(AddSketch(bound, true, scale), bound[1], bound[2])
    ensures bound[2] != bound[0] ==>
              AddSketch(bound, true, scale)[3] != bound[0] && AddSketch(bound, true, scale)[3] != bound[2]
  {
    SplitEdgeKeepsOtherEdges(bound[..3], 2, 1.0 - scale, 0);
    SplitEdgeKeepsOtherEdges(bound[..3], 2, 1.0 - scale, 1);
    if bound[2] != bound[0] {
      SplitEdgeAddsCorner(bound[..3], 2, 1.0 - scale);
    }
  }
}
