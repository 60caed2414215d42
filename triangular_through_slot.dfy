/** `Features/triangular_through_slot.py`: a V-shaped slot through the
    stock, with its open side `bound[1]`..`bound[2]` on the stock's edge and
    its apex at the region's corner average. */
module TriangularThroughSlot {
  import opened Geometry
  import opened Polygon
  import opened Descriptors

  /** The fields `TriangularThroughSlot.__init__` sets. */
  const Descriptor: FeatureDescriptor := FeatureDescriptor(1, 1, Through, "triangular_through_slot")

  /** The canonical triangle: the open side and the apex `pnt3`; the open
      side `bound[1]`..`bound[2]` is one of its edges. */
  function Triangle(bound: seq<Point>): (t: seq<Point>)
    requires |bound| >= 4
    ensures |t| == 3 && HasEdge(t, bound[1], bound[2])
  {
    var t := [bound[1], bound[2], Centroid(bound)];
    assert t[0] == bound[1] && Succ(t, 0) == bound[2];
    t
  }

  /** `_add_sketch(bound, hetero)` with the draws `scale` in [0.1, 0.9] and
      `random.choice([bound[1], bound[2]])` (index `choice`) as parameters.
      `pnt4` lies between the chosen corner and the apex and is placed on
      that corner's side, keeping the vertex order: with the corner
      `bound[1]` (compared by value, so also when both corners coincide)
      it splits the side from the apex back to `bound[1]`, otherwise the side
      from `bound[2]` to the apex. */
  function AddSketch(bound: seq<Point>, hetero: bool, scale: real, choice: nat): (r: seq<Point>)
    requires |bound| >= 4
    requires hetero ==> IsScale(scale) && choice <= 1
    ensures !hetero ==> r == Triangle(bound)
    ensures hetero && (choice == 0 || bound[1] == bound[2]) ==> r == SplitEdge(Triangle(bound), 2, 1.0 - scale)
    ensures hetero && choice == 1 && bound[1] != bound[2] ==> r == SplitEdge(Triangle(bound), 1, scale)
  {
    var pnt3 := Centroid(bound);
    if hetero then
      var selected := if choice == 0 then bound[1] else bound[2];
      var pnt4 := Lerp(scale, selected, pnt3);
      LerpSwap(scale, selected, pnt3);
      if selected == bound[1] then [bound[1], bound[2], pnt3, pnt4]
      else [bound[1], bound[2], pnt4, pnt3]
    else
      [bound[1], bound[2], pnt3]
  }

  /** Whichever corner is chosen, the open side stays a whole edge and the
      outline keeps the canonical triangle's vector area, so the
      heterogeneous slot has the canonical slot's orientation. */
  lemma OpenSideAndAreaKept(bound: seq<Point>, scale: real, choice: nat)
    requires |bound| >= 4 && IsScale(scale) && choice <= 1
    ensures HasEdge(AddSketch(bound, true, scale, choice), bound[1], bound[2])
    ensures VectorArea2(AddSketch(bound, true, scale, choice)) == VectorArea2(Triangle(bound))
  {
    var t := Triangle(bound);
    if choice == 0 || bound[1] == bound[2] {
      SplitEdgeKeepsOtherEdges(t, 2, 1.0 - scale, 0);
      SplitEdgeKeepsArea(t, 2, 1.0 - scale);
    } else {
      SplitEdgeKeepsOtherEdges(t, 1, scale, 0);
      SplitEdgeKeepsArea(t, 1, scale);
    }
  }

  /** `pnt4` lies strictly between the chosen corner and the apex: when
      they differ it is neither of them. */
  lemma ExtraVertexBetween(bound: seq<Point>, scale: real, choice: nat)
    requires |bound| >= 4 && IsScale(scale) && choice <= 1
    requires var selected := if choice == 0 then bound[1] else bound[2];
             selected != Centroid(bound)
    ensures var selected := if choice == 0 then bound[1] else bound[2];
            var r := AddSketch(bound, true, scale, choice);
            var pnt4 := if choice == 0 || bound[1] == bound[2] then r[3] else r[2];
            pnt4 != selected && pnt4 != Centroid(bound)
  {
    var selected := if choice == 0 then bound[1] else bound[2];
    LerpAvoidsEndpoints(scale, selected, Centroid(bound));
  }
}
