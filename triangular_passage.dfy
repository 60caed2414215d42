/** `Features/triangular_passage.py`: a triangular passage through the
    stock whose corners lie on the circle inscribed in the region, at angles
    roughly a third of a turn apart. */
module TriangularPassage {
  import opened Wrappers
  import opened Geometry
  import opened Polygon
  import opened Descriptors
  import opened Kernel
  import opened Region

  /** The fields `TriangularPassage.__init__` sets. */
  const Descriptor: FeatureDescriptor := FeatureDescriptor(4, 4, Through, "triangular_passage")

  /** The range of `ang1 = random.uniform(0.0, 2 * math.pi / 3)`. */
  predicate IsFirstAngle(ang1: real) {
    0.0 <= ang1 <= 2.0 * PI / 3.0
  }

  /** The range of the angular steps,
      `random.uniform(2 * math.pi / 3 - math.pi / 9, 2 * math.pi / 3 + math.pi / 9)`. */
  predicate IsStep(d: real) {
    2.0 * PI / 3.0 - PI / 9.0 <= d <= 2.0 * PI / 3.0 + PI / 9.0
  }

  /** `ang1`, `ang2 = ang1 + d2` and `ang3 = ang2 + d3`, each brought back by
      a full turn when it exceeds `2 * pi`. `ang2` and `ang3` lie in
      `(0, 2 * pi]`; `ang2` never exceeds `2 * pi`, so its wrap-around never
      applies. */
  function TriangleAngles(ang1: real, d2: real, d3: real): (a: seq<real>)
    requires IsFirstAngle(ang1) && IsStep(d2) && IsStep(d3)
    ensures |a| == 3 && a[0] == ang1 && a[1] == ang1 + d2
    ensures 0.0 < a[1] <= 2.0 * PI && 0.0 < a[2] <= 2.0 * PI
  {
    var ang2 := ang1 + d2;
    var ang2 := if ang2 > 2.0 * PI then ang2 - 2.0 * PI else ang2;
    var ang3 := ang2 + d3;
    var ang3 := if ang3 > 2.0 * PI then ang3 - 2.0 * PI else ang3;
    [ang1, ang2, ang3]
  }

  /** The counter-clockwise angle from position `a` to position `b` on the
      circle, for `a`, `b` in `[0, 2 * pi]`. */
  function ArcFrom(a: real, b: real): real {
    if b >= a then b - a else b - a + 2.0 * PI
  }

  /** Going round the circle from `ang1` the corners come in the order
      `ang1`, `ang2`, `ang3`; the three central angles between them sum to a
      full turn and each lies in `[4 * pi / 9, 8 * pi / 9]`, below a half
      turn, so the triangle always contains the circle's centre. */
  lemma CentralAngles(ang1: real, d2: real, d3: real)
    requires IsFirstAngle(ang1) && IsStep(d2) && IsStep(d3)
    ensures var a := TriangleAngles(ang1, d2, d3);
            && ArcFrom(a[0], a[1]) + ArcFrom(a[1], a[2]) + ArcFrom(a[2], a[0]) == 2.0 * PI
            && 4.0 * PI / 9.0 <= ArcFrom(a[0], a[1]) <= 8.0 * PI / 9.0
            && 4.0 * PI / 9.0 <= ArcFrom(a[1], a[2]) <= 8.0 * PI / 9.0
            && 4.0 * PI / 9.0 <= ArcFrom(a[2], a[0]) <= 8.0 * PI / 9.0
  {
    var a := TriangleAngles(ang1, d2, d3);
    assert ArcFrom(a[0], a[1]) == d2;
    assert ArcFrom(a[1], a[2]) == d3;
    assert ArcFrom(a[2], a[0]) == 2.0 * PI - d2 - d3;
  }

  /** The canonical triangle `[pt1, pt2, pt3]`: `circ.Value` at the three
      angles on the region's inscribed circle. On a kernel whose circle
      values lie on their circle, the corners lie on the inscribed circle; on
      an inscribed circle of positive radius and a kernel whose circle values
      do not repeat within a turn, they are pairwise distinct. */
  function Corners(k: Oracle, bound: seq<Point>, ang1: real, d2: real, d3: real): (c: seq<Point>)
    requires |bound| >= 4 && IsFirstAngle(ang1) && IsStep(d2) && IsStep(d3)
    ensures |c| == 3
    ensures forall i :: 0 <= i < 3 ==> c[i] == k.circleValue(Incircle(k, bound), TriangleAngles(ang1, d2, d3)[i])
    ensures var circ := Incircle(k, bound);
            CircleValueOnCircle(k) ==>
              forall i :: 0 <= i < 3 ==> Dot(Sub(c[i], circ.center), Sub(c[i], circ.center)) == circ.radius * circ.radius
    ensures CircleValueOneTurn(k) && Incircle(k, bound).radius > 0.0 ==>
              c[0] != c[1] && c[1] != c[2] && c[2] != c[0]
  {
    var circ := Incircle(k, bound);
    var a := TriangleAngles(ang1, d2, d3);
    AnglesWithinTurn(ang1, d2, d3, 0, 1);
    AnglesWithinTurn(ang1, d2, d3, 1, 2);
    AnglesWithinTurn(ang1, d2, d3, 0, 2);
    CircleValuesOnCircle(k, circ, a);
    CircleValuesDistinct(k, circ, a);
    [k.circleValue(circ, a[0]), k.circleValue(circ, a[1]), k.circleValue(circ, a[2])]
  }

  /** `[item for item in items if item not in selected]`: the items, in
      order, that are equal to no selected item. */
  function Unselected(items: seq<Point>, selected: seq<Point>): (r: seq<Point>)
    ensures forall p :: p in r <==> p in items && p !in selected
    ensures |r| <= |items|
  {
    if items == [] then []
    else (if items[0] in selected then [] else [items[0]]) + Unselected(items[1..], selected)
  }

  /** The corner that `random.sample(original_list, 2)` left out, when it drew
      the corners at indices `first` and `second`. */
  function Third(first: nat, second: nat): (t: nat)
    requires first < 3 && second < 3 && first != second
    ensures t < 3 && t != first && t != second
  {
    3 - first - second
  }

  /** `_add_sketch(bound, hetero)` with the angle draws, the indices `first`,
      `second` of the two corners `random.sample` picks and `scale` as
      parameters. The heterogeneous quadrilateral is the first picked
      corner, a point between the two picked corners, the second picked
      corner and the unpicked corner. The unpicked corner is looked up by
      value: when it equals a picked one `unselected_items[0]` raises
      `IndexError`, modelled as `None`. */
  function AddSketch(k: Oracle, bound: seq<Point>, hetero: bool, ang1: real, d2: real, d3: real,
                     first: nat, second: nat, scale: real): (r: Option<seq<Point>>)
    requires |bound| >= 4 && IsFirstAngle(ang1) && IsStep(d2) && IsStep(d3)
    requires hetero ==> first < 3 && second < 3 && first != second && IsScale(scale)
    ensures !hetero ==> r == Some(Corners(k, bound, ang1, d2, d3))
    ensures var c := Corners(k, bound, ang1, d2, d3);
            hetero ==> (r.None? <==> c[Third(first, second)] in [c[first], c[second]])
    ensures var c := Corners(k, bound, ang1, d2, d3);
            hetero && r.Some? ==>
              r.value == [c[first], Lerp(scale, c[first], c[second]), c[second], c[Third(first, second)]]
  {
    var c := Corners(k, bound, ang1, d2, d3);
    if hetero then
      var selected := [c[first], c[second]];
      var unselected := Unselected(c, selected);
      if |unselected| == 0 then
        None
      else
        assert unselected[0] in unselected;
        Some([selected[0], Lerp(scale, selected[0], selected[1]), selected[1], unselected[0]])
    else
      Some(c)
  }

  /** `-v`. */
  function Neg(v: Point): Point {
    Point(-v.x, -v.y, -v.z)
  }

  /** The shoelace sum of a triangle written out. */
  lemma TriangleArea(a: Point, b: Point, c: Point)
    ensures VectorArea2([a, b, c]) == Add(Add(Cross(a, b), Add(Cross(b, c), Origin)), Cross(c, a))
  {
    var s := [a, b, c];
    assert s[1..] == [b, c] && s[1..][1..] == [c];
    assert CrossChain([c]) == Origin;
    assert CrossChain([b, c]) == Add(Cross(b, c), Origin);
    assert CrossChain(s) == Add(Cross(a, b), CrossChain([b, c]));
  }

  /** Starting a triangle at its next corner keeps its vector area. */
  lemma RotatedTriangleArea(a: Point, b: Point, c: Point)
    ensures VectorArea2([b, c, a]) == VectorArea2([a, b, c])
  {
    TriangleArea(a, b, c);
    TriangleArea(b, c, a);
  }

  /** Swapping two corners of a triangle negates its vector area. */
  lemma SwappedTriangleArea(a: Point, b: Point, c: Point)
    ensures VectorArea2([a, c, b]) == Neg(VectorArea2([a, b, c]))
  {
    TriangleArea(a, b, c);
    TriangleArea(a, c, b);
  }

  /** The triangle of two picked corners, in picked order, followed by the
      unpicked one has the orientation of `c` exactly when the second pick
      follows the first in `c`'s order. */
  lemma PickedTriangleArea(c: seq<Point>, first: nat, second: nat)
    requires |c| == 3 && first < 3 && second < 3 && first != second
    ensures var q := [c[first], c[second], c[Third(first, second)]];
            && (second == (first + 1) % 3 ==> VectorArea2(q) == VectorArea2(c))
            && (second != (first + 1) % 3 ==> VectorArea2(q) == Neg(VectorArea2(c)))
  {
    var t := Third(first, second);
    var q := [c[first], c[second], c[t]];
    assert c == [c[0], c[1], c[2]];
    RotatedTriangleArea(c[0], c[1], c[2]);
    RotatedTriangleArea(c[1], c[2], c[0]);
    if second == (first + 1) % 3 {
      assert q == c || q == [c[1], c[2], c[0]] || q == [c[2], c[0], c[1]];
    } else {
      var p := [c[first], c[t], c[second]];
      assert p == c || p == [c[1], c[2], c[0]] || p == [c[2], c[0], c[1]];
      SwappedTriangleArea(c[first], c[t], c[second]);
    }
  }

  /** On a triangle with three distinct corners the heterogeneous profile
      always exists: it is the triangle of the picked corners in picked
      order followed by the unpicked one, with its first side split. It has
      the canonical triangle's orientation exactly when the second pick
      follows the first in the canonical order; otherwise it winds the
      other way round. */
  lemma WindingFollowsPick(k: Oracle, bound: seq<Point>, ang1: real, d2: real, d3: real,
                           first: nat, second: nat, scale: real)
    requires |bound| >= 4 && IsFirstAngle(ang1) && IsStep(d2) && IsStep(d3)
    requires first < 3 && second < 3 && first != second && IsScale(scale)
    requires var c := Corners(k, bound, ang1, d2, d3);
             c[0] != c[1] && c[1] != c[2] && c[2] != c[0]
    ensures var c := Corners(k, bound, ang1, d2, d3);
            var q := [c[first], c[second], c[Third(first, second)]];
            var r := AddSketch(k, bound, true, ang1, d2, d3, first, second, scale);
            && r == Some(SplitEdge(q, 0, scale))
            && (second == (first + 1) % 3 ==> VectorArea2(r.value) == VectorArea2(c))
            && (second != (first + 1) % 3 ==> VectorArea2(r.value) == Neg(VectorArea2(c)))
  {
    var c := Corners(k, bound, ang1, d2, d3);
    var t := Third(first, second);
    var q := [c[first], c[second], c[t]];
    assert c[t] != c[first] && c[t] != c[second] by {
      assert forall i, j :: 0 <= i < 3 && 0 <= j < 3 && i != j ==> c[i] != c[j];
    }
    assert c[t] !in [c[first], c[second]];
    assert SplitEdge(q, 0, scale) == [q[0], Lerp(scale, q[0], q[1]), q[1], q[2]];
    SplitEdgeKeepsArea(q, 0, scale);
    PickedTriangleArea(c, first, second);
  }

  /** Any two of the three angles are less than a full turn apart, one way
      or the other. */
  lemma AnglesWithinTurn(ang1: real, d2: real, d3: real, i: nat, j: nat)
    requires IsFirstAngle(ang1) && IsStep(d2) && IsStep(d3)
    requires i < 3 && j < 3 && i < j
    ensures var a := TriangleAngles(ang1, d2, d3);
            0.0 < a[j] - a[i] < 2.0 * PI || 0.0 < a[i] - a[j] < 2.0 * PI
  {
  }

  /** On a region with two proper sides and such a kernel, the lookup of the
      unpicked corner never raises: the heterogeneous profile always exists,
      and it winds as `WindingFollowsPick` says. */
  lemma HeteroProfileExists(k: Oracle, bound: seq<Point>, ang1: real, d2: real, d3: real,
                            first: nat, second: nat, scale: real)
    requires |bound| >= 4 && IsFirstAngle(ang1) && IsStep(d2) && IsStep(d3)
    requires first < 3 && second < 3 && first != second && IsScale(scale)
    requires EuclideanNorm(k) && CircleValueOneTurn(k)
    requires bound[2] != bound[1] && bound[0] != bound[1]
    ensures AddSketch(k, bound, true, ang1, d2, d3, first, second, scale).Some?
  {
    IncircleRadiusPositive(k, bound);
    WindingFollowsPick(k, bound, ang1, d2, d3, first, second, scale);
  }
}
