/** `Features/circular_through_slot.py`: a round-ended slot through the
    stock, bounded by a chord on the region's side `bound[1]`..`bound[2]` and
    a circular arc reaching into the region. */
module CircularThroughSlot {
  import opened Wrappers
  import opened Geometry
  import opened Wire
  import opened Descriptors
  import opened Kernel
  import opened Region

  /** The fields `CircularThroughSlot.__init__` sets. */
  const Descriptor: FeatureDescriptor := FeatureDescriptor(1, 1, Through, "circular_through_slot")

  /** `radius = min(width / 2, height)`: no more than half the side the
      slot opens on and no more than the region's depth, and equal to one
      of them. */
  function Radius(k: Oracle, bound: seq<Point>): (r: real)
    requires |bound| >= 3
    ensures r <= Width(k, bound) / 2.0 && r <= Height(k, bound)
    ensures r == Width(k, bound) / 2.0 || r == Height(k, bound)
  {
    Min(Width(k, bound) / 2.0, Height(k, bound))
  }

  /** `center = (bound[1] + bound[2]) / 2`: halfway along the open side. */
  function Center(bound: seq<Point>): (c: Point)
    requires |bound| >= 3
    ensures Sub(c, bound[1]) == Sub(bound[2], c)
  {
    Midpoint(bound[1], bound[2])
  }

  /** `pnt1` and `pnt2`: the chord's end points, `radius` either side of the
      centre along `bound[1]`..`bound[2]` when the radius is less than half
      the width, the side's corners otherwise. Either way the chord is a
      diameter of the arc's circle. */
  function ChordEnds(k: Oracle, bound: seq<Point>): (p: (Point, Point))
    requires |bound| >= 3
    ensures Midpoint(p.0, p.1) == Center(bound)
  {
    var edgeDir := DirW(k, bound);
    var radius := Radius(k, bound);
    var center := Center(bound);
    if radius < Width(k, bound) / 2.0 then
      (Sub(center, Scale(radius, edgeDir)), Add(center, Scale(radius, edgeDir)))
    else
      (bound[1], bound[2])
  }

  /** Under Euclidean norms, on a region whose side `bound[1]`..`bound[2]` has
      length, both chord ends lie on the circle of the slot's radius about
      its centre. */
  lemma ChordEndsOnCircle(k: Oracle, bound: seq<Point>)
    requires |bound| >= 3
    requires EuclideanNorm(k) && NormalizedUnits(k)
    requires bound[2] != bound[1]
    ensures var p := ChordEnds(k, bound);
            var r := Radius(k, bound);
            && Dot(Sub(p.0, Center(bound)), Sub(p.0, Center(bound))) == r * r
            && Dot(Sub(p.1, Center(bound)), Sub(p.1, Center(bound))) == r * r
  {
    var v := Sub(bound[2], bound[1]);
    if Radius(k, bound) < Width(k, bound) / 2.0 {
      assert v != Origin;
      UnitHasLengthOne(k, v);
      ShortChordOnCircle(k, bound);
    } else {
      assert Width(k, bound) * Width(k, bound) == Dot(v, v);
      FullChordOnCircle(k, bound);
    }
  }

  /** `ChordEndsOnCircle` when the radius is less than half the width: the
      ends are `radius` either side of the centre along the unit `edge_dir`. */
  lemma ShortChordOnCircle(k: Oracle, bound: seq<Point>)
    requires |bound| >= 3
    requires Dot(DirW(k, bound), DirW(k, bound)) == 1.0
    requires Radius(k, bound) < Width(k, bound) / 2.0
    ensures var p := ChordEnds(k, bound);
            var r := Radius(k, bound);
            && Dot(Sub(p.0, Center(bound)), Sub(p.0, Center(bound))) == r * r
            && Dot(Sub(p.1, Center(bound)), Sub(p.1, Center(bound))) == r * r
  {
    var c, u, r := Center(bound), DirW(k, bound), Radius(k, bound);
    assert ChordEnds(k, bound) == (Sub(c, Scale(r, u)), Add(c, Scale(r, u)));
    OffsetsOnCircle(c, u, r);
  }

  /** `ChordEndsOnCircle` otherwise: the ends are the side's corners, half
      the width from its midpoint, and the radius is half the width. */
  lemma FullChordOnCircle(k: Oracle, bound: seq<Point>)
    requires |bound| >= 3
    requires Width(k, bound) * Width(k, bound) == Dot(Sub(bound[2], bound[1]), Sub(bound[2], bound[1]))
    requires Radius(k, bound) >= Width(k, bound) / 2.0
    ensures var p := ChordEnds(k, bound);
            var r := Radius(k, bound);
            && Dot(Sub(p.0, Center(bound)), Sub(p.0, Center(bound))) == r * r
            && Dot(Sub(p.1, Center(bound)), Sub(p.1, Center(bound))) == r * r
  {
    var w := Width(k, bound);
    assert ChordEnds(k, bound) == (bound[1], bound[2]);
    assert Radius(k, bound) == w / 2.0;
    HalfSidesOnCircle(bound[1], bound[2], w);
  }

  /** The points `r` either side of `c` along a unit vector are `r` from `c`. */
  lemma OffsetsOnCircle(c: Point, u: Point, r: real)
    requires Dot(u, u) == 1.0
    ensures Dot(Sub(Sub(c, Scale(r, u)), c), Sub(Sub(c, Scale(r, u)), c)) == r * r
    ensures Dot(Sub(Add(c, Scale(r, u)), c), Sub(Add(c, Scale(r, u)), c)) == r * r
  {
    assert Sub(Sub(c, Scale(r, u)), c) == Scale(-r, u);
    assert Sub(Add(c, Scale(r, u)), c) == Scale(r, u);
    DotScale(-r, u);
    DotScale(r, u);
  }

  /** The ends of a segment of length `w` are `w / 2` from its midpoint. */
  lemma HalfSidesOnCircle(a: Point, b: Point, w: real)
    requires w * w == Dot(Sub(b, a), Sub(b, a))
    ensures Dot(Sub(a, Midpoint(a, b)), Sub(a, Midpoint(a, b))) == (w / 2.0) * (w / 2.0)
    ensures Dot(Sub(b, Midpoint(a, b)), Sub(b, Midpoint(a, b))) == (w / 2.0) * (w / 2.0)
  {
    assert Sub(a, Midpoint(a, b)) == Scale(-0.5, Sub(b, a));
    assert Sub(b, Midpoint(a, b)) == Scale(0.5, Sub(b, a));
    DotScale(-0.5, Sub(b, a));
    DotScale(0.5, Sub(b, a));
  }

  /** The D-shaped outline: the chord from `p1` to `p2` and the arc of
      `circle` from `p2` back to `p1`, a closed two-edge wire. */
  function DShape(p1: Point, p2: Point, circle: Circle): (w: seq<Edge>)
    ensures |w| == 2 && IsClosedChain(w)
  {
    [Segment(p1, p2), Arc(circle, p2, p1)]
  }

  /** The canonical circle: axis `edge_dir × (bound[0] - bound[1])`, centred
      at the chord's midpoint with the slot's radius. */
  function CanonicalCircle(k: Oracle, bound: seq<Point>): (c: Circle)
    requires |bound| >= 3
    ensures var p := ChordEnds(k, bound); c.center == Midpoint(p.0, p.1) && c.radius == Radius(k, bound)
  {
    Circle(Center(bound), Cross(DirW(k, bound), Sub(bound[0], bound[1])), Radius(k, bound))
  }

  /** The heterogeneous circle: axis `edge_dir × radius_dir`, with
      `radius_dir` the unit vector along `bound[0] - bound[1]`, centred at
      the chord's midpoint with the slot's radius. */
  function HeteroCircle(k: Oracle, bound: seq<Point>): (c: Circle)
    requires |bound| >= 3
    ensures var p := ChordEnds(k, bound); c.center == Midpoint(p.0, p.1) && c.radius == Radius(k, bound)
  {
    Circle(Center(bound), Cross(DirW(k, bound), DirH(k, bound)), Radius(k, bound))
  }

  /** The two circles differ only in the length of the axis vector, which
      `gp_Dir` normalises away: the heterogeneous axis is the canonical one
      divided by `height`. */
  lemma CirclesAgree(k: Oracle, bound: seq<Point>)
    requires |bound| >= 3
    requires NormalizedUnits(k) && Height(k, bound) != 0.0
    ensures HeteroCircle(k, bound).center == CanonicalCircle(k, bound).center
    ensures HeteroCircle(k, bound).radius == CanonicalCircle(k, bound).radius
    ensures HeteroCircle(k, bound).axis == Scale(1.0 / Height(k, bound), CanonicalCircle(k, bound).axis)
  {
    CrossScale(DirW(k, bound), 1.0 / Height(k, bound), Sub(bound[0], bound[1]));
  }

  /** A scalar factor on the second argument moves out of the cross product. */
  lemma CrossScale(a: Point, s: real, b: Point)
    ensures Cross(a, Scale(s, b)) == Scale(s, Cross(a, b))
  {
    var x := a.y * (s * b.z) - a.z * (s * b.y);
    var y := a.z * (s * b.x) - a.x * (s * b.z);
    var z := a.x * (s * b.y) - a.y * (s * b.x);
    assert x == s * (a.y * b.z - a.z * b.y);
    assert y == s * (a.z * b.x - a.x * b.z);
    assert z == s * (a.x * b.y - a.y * b.x);
    assert Cross(a, Scale(s, b)) == Point(x, y, z);
    assert Scale(s, Cross(a, b)) == Point(x, y, z);
  }

  /** The range of `angle = random.uniform(-math.pi / 3, math.pi / 3)`. */
  predicate IsAngle(angle: real) {
    -PI / 3.0 <= angle <= PI / 3.0
  }

  /** `pnt3`: `radius_dir` turned by `angle` about the heterogeneous axis
      normalised (`gp_Dir`), `radius` from the centre. */
  function ArcPoint(k: Oracle, bound: seq<Point>, angle: real): Point
    requires |bound| >= 3
  {
    var radiusDir := k.rotate(DirH(k, bound), angle, k.unit(HeteroCircle(k, bound).axis));
    Add(Center(bound), Scale(Radius(k, bound), radiusDir))
  }

  /** Under Euclidean norms and a length-keeping rotation, on a region
      whose side `bound[0]`..`bound[1]` has length, `pnt3` lies on the
      circle of the slot. */
  lemma ArcPointOnCircle(k: Oracle, bound: seq<Point>, angle: real)
    requires |bound| >= 3
    requires EuclideanNorm(k) && NormalizedUnits(k) && RotationKeepsLength(k)
    requires bound[0] != bound[1]
    ensures var d := Sub(ArcPoint(k, bound, angle), Center(bound));
            Dot(d, d) == Radius(k, bound) * Radius(k, bound)
  {
    var v := Sub(bound[0], bound[1]);
    assert v != Origin;
    UnitHasLengthOne(k, v);
    var radiusDir := k.rotate(DirH(k, bound), angle, k.unit(HeteroCircle(k, bound).axis));
    assert Dot(radiusDir, radiusDir) == 1.0;
    assert Sub(ArcPoint(k, bound, angle), Center(bound)) == Scale(Radius(k, bound), radiusDir);
    DotScale(Radius(k, bound), radiusDir);
  }

  /** The wire of `_add_sketch(bound, hetero)`, with the draw `angle` as a
      parameter. Both wires are closed; the canonical one is the D shape,
      the heterogeneous one the D shape on the heterogeneous circle with its
      arc split at `pnt3`. */
  function Outline(k: Oracle, bound: seq<Point>, hetero: bool, angle: real): (w: seq<Edge>)
    requires |bound| >= 3
    requires hetero ==> IsAngle(angle)
    ensures IsClosedChain(w)
    ensures var p := ChordEnds(k, bound);
            !hetero ==> w == DShape(p.0, p.1, CanonicalCircle(k, bound))
    ensures var p := ChordEnds(k, bound);
            hetero ==> w == SplitChain(DShape(p.0, p.1, HeteroCircle(k, bound)), 1, AtPoint(ArcPoint(k, bound, angle)))
  {
    var p := ChordEnds(k, bound);
    var edge1 := Segment(p.0, p.1);
    if hetero then
      var circ := HeteroCircle(k, bound);
      var pnt3 := ArcPoint(k, bound, angle);
      [edge1, Arc(circ, p.1, pnt3), Arc(circ, pnt3, p.0)]
    else
      [edge1, Arc(CanonicalCircle(k, bound), p.1, p.0)]
  }

  /** `_add_sketch(bound, hetero)`: the face's wire when
      `BRepBuilderAPI_MakeFace` accepts it, `None` when it raises
      `RuntimeError`. */
  function AddSketch(k: Oracle, bound: seq<Point>, hetero: bool, angle: real): (r: Option<seq<Edge>>)
    requires |bound| >= 3
    requires hetero ==> IsAngle(angle)
    ensures r.None? <==> !k.makesFace(Outline(k, bound, hetero, angle))
    ensures r.Some? ==> r.value == Outline(k, bound, hetero, angle) && IsClosedChain(r.value)
  {
    var w := Outline(k, bound, hetero, angle);
    if k.makesFace(w) then Some(w) else None
  }
}
