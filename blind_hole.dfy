/** `Features/blind_hole.py`: a round hole cut to a floor, on the circle
    inscribed in the region. */
module BlindHole {
  import opened Geometry
  import opened Wire
  import opened Descriptors
  import opened Kernel
  import opened Region

  /** The fields `BlindHole.__init__` sets. */
  const Descriptor: FeatureDescriptor := FeatureDescriptor(4, 4, Blind, "blind_hole")

  /** The range of the split draw `scale = random.uniform(0.5, 1.5)`. */
  predicate IsSplitScale(scale: real) {
    0.5 <= scale <= 1.5
  }

  /** The canonical wire: one edge over the whole parameter range
      `[0, 2 * pi]` of the inscribed circle, which closes on itself. */
  function FullCircle(k: Oracle, bound: seq<Point>): (w: seq<Edge>)
    requires |bound| >= 4
    ensures |w| == 1 && IsClosedChain(w)
  {
    [CircleArc(Incircle(k, bound), 0.0, 2.0 * PI)]
  }

  /** `_add_sketch(bound, hetero)` up to `BRepBuilderAPI_MakeFace`: the wire
      of the face, with the draw `scale` as a parameter. Both wires lie on
      the same circle and close up after a full turn; the heterogeneous one
      is the full circle cut at parameter `scale * pi`, strictly inside
      `(0, 2 * pi)`, into two proper arcs. */
  function AddSketch(k: Oracle, bound: seq<Point>, hetero: bool, scale: real): (w: seq<Edge>)
    requires |bound| >= 4
    requires hetero ==> IsSplitScale(scale)
    ensures IsClosedChain(w)
    ensures forall e :: e in w ==> e.CircleArc? && e.circle == Incircle(k, bound) && e.t0 < e.t1
    ensures !hetero ==> w == FullCircle(k, bound)
    ensures hetero ==> w == SplitChain(FullCircle(k, bound), 0, AtParam(scale * PI))
  {
    var circ := Incircle(k, bound);
    if hetero then
      [CircleArc(circ, 0.0, scale * PI), CircleArc(circ, scale * PI, 2.0 * PI)]
    else
      [CircleArc(circ, 0.0, 2.0 * PI)]
  }

  /** Merging the two arcs of the heterogeneous wire gives back the canonical
      full circle. */
  lemma HalvesMergeToCircle(k: Oracle, bound: seq<Point>, scale: real)
    requires |bound| >= 4 && IsSplitScale(scale)
    ensures var w := AddSketch(k, bound, true, scale);
            Mergeable(w[0], w[1]) && MergeChain(w, 0) == FullCircle(k, bound)
  {
    MergeUndoesSplit(FullCircle(k, bound), 0, AtParam(scale * PI));
  }
}
