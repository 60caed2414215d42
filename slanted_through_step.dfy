/** `Features/slanted_through_step.py`: a step whose far side is slanted by
    pulling exactly one of `bound[0]`, `bound[3]` towards the region's near
    side. Its `depth_type` is `"blind"`, as the class sets it. */
module SlantedThroughStep {
  import opened Geometry
  import opened Polygon
  import opened Descriptors

  /** The fields `SlantedThroughStep.__init__` sets. */
  const Descriptor: FeatureDescriptor := FeatureDescriptor(3, 3, Blind, "slanted_through_step")

  /** The outcomes of `mark = [0, 1]; random.shuffle(mark)`. */
  predicate IsMark(mark: seq<int>) {
    mark == [0, 1] || mark == [1, 0]
  }

  /** The range of `ratio = random.uniform(0.3, 0.6)`. */
  predicate IsRatio(ratio: real) {
    0.3 <= ratio <= 0.6
  }

  /** The canonical quadrilateral `[pt0, pt1, pt2, pt3]` with
      `pt0 = bound[0] - dir_l * mark[0] * ratio` and
      `pt3 = bound[3] - dir_r * mark[1] * ratio`: the corner whose mark is 1
      moves a fraction `ratio` of the way along its side towards `bound[1]`
      or `bound[2]`, the other stays. */
  function Quad(bound: seq<Point>, mark: seq<int>, ratio: real): (r: seq<Point>)
    requires |bound| >= 4 && IsMark(mark)
    ensures |r| == 4 && r[1] == bound[1] && r[2] == bound[2]
    ensures mark == [1, 0] ==> r[0] == Lerp(1.0 - ratio, bound[0], bound[1]) && r[3] == bound[3]
    ensures mark == [0, 1] ==> r[0] == bound[0] && r[3] == Lerp(1.0 - ratio, bound[3], bound[2])
  {
    var dirL := Sub(bound[0], bound[1]);
    var dirR := Sub(bound[3], bound[2]);
    [Sub(bound[0], Scale(ratio, Scale(mark[0] as real, dirL))), bound[1], bound[2],
     Sub(bound[3], Scale(ratio, Scale(mark[1] as real, dirR)))]
  }

  /** On a region with proper sides `bound[0]`..`bound[1]` and
      `bound[3]`..`bound[2]`, exactly one of the two far corners moves. */
  lemma ExactlyOneCornerMoves(bound: seq<Point>, mark: seq<int>, ratio: real)
    requires |bound| >= 4 && IsMark(mark) && IsRatio(ratio)
    requires bound[0] != bound[1] && bound[3] != bound[2]
    ensures var q := Quad(bound, mark, ratio);
            (q[0] != bound[0]) != (q[3] != bound[3])
  {
    if mark == [1, 0] {
      LerpAvoidsEndpoints(1.0 - ratio, bound[0], bound[1]);
    } else {
      LerpAvoidsEndpoints(1.0 - ratio, bound[3], bound[2]);
    }
  }

  /** `_add_sketch(bound, hetero)` with the draws `mark`, `ratio` and `scale`
      as parameters: the extra vertex `scale * pt0 + (1 - scale) * pt3` is
      appended, splitting the slanted closing side `pt3`..`pt0`. */
  function AddSketch(bound: seq<Point>, hetero: bool, mark: seq<int>, ratio: real, scale: real): (r: seq<Point>)
    requires |bound| >= 4 && IsMark(mark) && IsRatio(ratio)
    requires hetero ==> IsScale(scale)
    ensures !hetero ==> r == Quad(bound, mark, ratio)
    ensures hetero ==> r == SplitEdge(Quad(bound, mark, ratio), 3, 1.0 - scale)
                       && r[..4] == Quad(bound, mark, ratio)
  {
    var q := Quad(bound, mark, ratio);
    if hetero then
      LerpSwap(scale, q[0], q[3]);
      q + [Lerp(scale, q[0], q[3])]
    else
      q
  }
}
