/** `Features/two_sides_through_step.py` (feature name `2sides_through_step`):
    a five-sided step whose two slanted sides meet at the midpoint of
    `bound[0]`..`bound[3]`. Its `depth_type` is `"blind"`, as the class sets
    it. */
module TwoSidesThroughStep {
  import opened Geometry
  import opened Polygon
  import opened Descriptors

  /** The fields `TwoSidesThroughStep.__init__` sets. */
  const Descriptor: FeatureDescriptor := FeatureDescriptor(3, 3, Blind, "2sides_through_step")

  /** The range of `ratio = random.uniform(0.4, 0.8)`. */
  predicate IsRatio(ratio: real) {
    0.4 <= ratio <= 0.8
  }

  /** The canonical pentagon `[pt0, pt1, pt2, pt3, pt4]`: `pt0` and `pt3` are
      the points a fraction `ratio` of the way from `bound[1]` to `bound[0]`
      and from `bound[2]` to `bound[3]`, `pt4` the midpoint of
      `bound[0]`..`bound[3]`. */
  function Pentagon(bound: seq<Point>, ratio: real): (r: seq<Point>)
    requires |bound| >= 4
    ensures |r| == 5 && r[1] == bound[1] && r[2] == bound[2]
    ensures r[0] == Lerp(ratio, bound[0], bound[1]) && r[3] == Lerp(ratio, bound[3], bound[2])
    ensures r[4] == Midpoint(bound[0], bound[3])
  {
    var dirL := Sub(bound[0], bound[1]);
    var dirR := Sub(bound[3], bound[2]);
    LerpIsOffset(ratio, bound[0], bound[1]);
    LerpIsOffset(ratio, bound[3], bound[2]);
    [Add(bound[1], Scale(ratio, dirL)), bound[1], bound[2], Add(bound[2], Scale(ratio, dirR)),
     Midpoint(bound[0], bound[3])]
  }

  /** `_add_sketch(bound, hetero)` with the draws `ratio`, `scale` and
      `random.choice([pt0, pt3])` (index `choice`) as parameters. `pt5` lies
      between the chosen point and `pt4` and is placed on its side: with
      `pt0` (compared by value) it splits the closing side `pt4`..`pt0`,
      otherwise the side `pt3`..`pt4`. */
  function AddSketch(bound: seq<Point>, hetero: bool, ratio: real, scale: real, choice: nat): (r: seq<Point>)
    requires |bound| >= 4 && IsRatio(ratio)
    requires hetero ==> IsScale(scale) && choice <= 1
    ensures !hetero ==> r == Pentagon(bound, ratio)
    ensures var p := Pentagon(bound, ratio);
            hetero && (choice == 0 || p[0] == p[3]) ==> r == SplitEdge(p, 4, 1.0 - scale)
    ensures var p := Pentagon(bound, ratio);
            hetero && choice == 1 && p[0] != p[3] ==> r == SplitEdge(p, 3, scale)
  {
    var p := Pentagon(bound, ratio);
    if hetero then
      var selected := if choice == 0 then p[0] else p[3];
      var pt5 := Lerp(scale, selected, p[4]);
      LerpSwap(scale, selected, p[4]);
      if selected == p[0] then [p[0], p[1], p[2], p[3], p[4], pt5]
      else [p[0], p[1], p[2], p[3], pt5, p[4]]
    else
      p
  }

  /** The three sides the step shares with the region's frame
      (`pt0`..`pt1`, `pt1`..`pt2`, `pt2`..`pt3`) stay whole edges, and the
      outline keeps the pentagon's vector area. */
  lemma FrameKept(bound: seq<Point>, ratio: real, scale: real, choice: nat)
    requires |bound| >= 4 && IsRatio(ratio) && IsScale(scale) && choice <= 1
    ensures var p := Pentagon(bound, ratio);
            var r := AddSketch(bound, true, ratio, scale, choice);
            HasEdge(r, p[0], p[1]) && HasEdge(r, p[1], p[2]) && HasEdge(r, p[2], p[3])
            && VectorArea2(r) == VectorArea2(p)
  {
    var p := Pentagon(bound, ratio);
    var k, s := if choice == 0 || p[0] == p[3] then 4 else 3, if choice == 0 || p[0] == p[3] then 1.0 - scale else scale;
    SplitEdgeKeepsOtherEdges(p, k, s, 0);
    SplitEdgeKeepsOtherEdges(p, k, s, 1);
    SplitEdgeKeepsOtherEdges(p, k, s, 2);
    SplitEdgeKeepsArea(p, k, s);
  }
}
