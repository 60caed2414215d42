/** `Features/rectangular_through_slot.py`: a slot open at both ends, cut
    through the stock from one side of a region whose side `bound[1]` to
    `bound[2]` lies on the stock's edge. */
module RectangularThroughSlot {
  import opened Geometry
  import opened Polygon
  import opened Descriptors

  /** The fields `RectangularThroughSlot.__init__` sets. */
  const Descriptor: FeatureDescriptor := FeatureDescriptor(1, 1, Through, "rectangular_through_slot")

  /** The edge draw `num` splits: `num = 0, 1, 2` pick edges 0, 2 and 3 of the
      quadrilateral. */
  function SplitIndex(num: nat): nat
    requires num <= 2
  {
    if num == 0 then 0 else num + 1
  }

  /** `_add_sketch(bound, hetero)` with the draws `scale` in [0.1, 0.9] and
      `num = random.randint(0, 2)` as parameters. */
  function AddSketch(bound: seq<Point>, hetero: bool, scale: real, num: nat): (r: seq<Point>)
    requires |bound| >= 4
    requires hetero ==> IsScale(scale) && num <= 2
    ensures !hetero ==> r == [bound[0], bound[1], bound[2], bound[3]]
    ensures hetero ==> r == SplitEdge(bound[..4], SplitIndex(num), scale)
  {
    if hetero then
      if num == 0 then [bound[0], Lerp(scale, bound[0], bound[1]), bound[1], bound[2], bound[3]]
      else if num == 1 then [bound[0], bound[1], bound[2], Lerp(scale, bound[2], bound[3]), bound[3]]
      else [bound[0], bound[1], bound[2], bound[3], Lerp(scale, bound[3], bound[0])]
    else
      bound[..4]
  }

  /** The side from `bound[1]` to `bound[2]` is never split: every
      heterogeneous profile keeps it as one edge. */
  lemma OpenSideKept(bound: seq<Point>, scale: real, num: nat)
    requires |bound| >= 4 && IsScale(scale) && num <= 2
    ensures HasEdge(AddSketch(bound, true, scale, num), bound[1], bound[2])
  {
    SplitEdgeKeepsOtherEdges(bound[..4], SplitIndex(num), scale, 1);
  }
}
