/** `Features/h_circular_end_blind_slot.py`: a slot cut to a floor from the
    region's side `bound[1]`..`bound[2]`, its two inner corners rounded by
    quarter circles of radius `rect_h`. */
module HCircularEndBlindSlot {
  import opened Geometry
  import opened Wire
  import opened Descriptors
  import opened Kernel
  import opened Region

  /** The fields `HCircularEndBlindSlot.__init__` sets. */
  const Descriptor: FeatureDescriptor := FeatureDescriptor(1, 1, Blind, "h_circular_end_blind_slot")

  /** The points and directions `_add_sketch` derives from the region before
      it draws anything. */
  datatype Layout = Layout(
    pt1: Point, pt2: Point, pt3: Point, pt4: Point,
    center1: Point, center2: Point,
    rectH: real, dirW: Point, dirH: Point, normal: Point)

  /** `rect_h = min(height, width / 2 - 0.5)`; `pt1`, `pt2` the side's
      corners; `pt3`, `pt4` a distance `rect_h` in from them along the side
      and across it; the centres `rect_h` in from them along the side. */
  function SlotLayout(k: Oracle, bound: seq<Point>): (l: Layout)
    requires |bound| >= 3
    ensures l.rectH <= Height(k, bound) && l.rectH <= Width(k, bound) / 2.0 - 0.5
    ensures l.rectH == Height(k, bound) || l.rectH == Width(k, bound) / 2.0 - 0.5
    ensures l.pt1 == bound[1] && l.pt2 == bound[2]
  {
    var dirW := DirW(k, bound);
    var dirH := DirH(k, bound);
    var h := Min(Height(k, bound), Width(k, bound) / 2.0 - 0.5);
    Layout(bound[1], bound[2],
           Add(Sub(bound[2], Scale(h, dirW)), Scale(h, dirH)),
           Add(Add(bound[1], Scale(h, dirW)), Scale(h, dirH)),
           Add(bound[1], Scale(h, dirW)),
           Sub(bound[2], Scale(h, dirW)),
           h, dirW, dirH, Cross(dirW, dirH))
  }

  /** `circ1` about `center1`, which rounds the corner at `pt1`. */
  function Circle1(l: Layout): Circle {
    Circle(l.center1, l.normal, l.rectH)
  }

  /** `circ2` about `center2`, which rounds the corner at `pt2`. */
  function Circle2(l: Layout): Circle {
    Circle(l.center2, l.normal, l.rectH)
  }

  /** The canonical outline: the side, the arc round `pt2`, the inner
      segment, the arc round `pt1`. */
  function Canonical(l: Layout): (w: seq<Edge>)
    ensures IsClosedChain(w)
  {
    [Segment(l.pt1, l.pt2), Arc(Circle2(l), l.pt2, l.pt3), Segment(l.pt3, l.pt4), Arc(Circle1(l), l.pt4, l.pt1)]
  }

  /** The range of `scale_w` and `scale_h`, `random.uniform(0.5, 1.0)`. */
  predicate IsPull(s: real) {
    0.5 <= s <= 1.0
  }

  /** `pt23`: `rect_h` from `center2` along the unit vector of
      `scale_w * dir_w + scale_h * dir_h`. */
  function Pt23(k: Oracle, l: Layout, scaleW: real, scaleH: real): Point {
    Add(l.center2, Scale(l.rectH, k.unit(Add(Scale(scaleW, l.dirW), Scale(scaleH, l.dirH)))))
  }

  /** `pt41`: `rect_h` from `center1` along the unit vector of
      `-scale_h * dir_w + scale_w * dir_h`. */
  function Pt41(k: Oracle, l: Layout, scaleW: real, scaleH: real): Point {
    Add(l.center1, Scale(l.rectH, k.unit(Add(Scale(-scaleH, l.dirW), Scale(scaleW, l.dirH)))))
  }

  /** `seg_maker`, the edge list of `_add_sketch(bound, hetero)`, with the
      draws `num = random.randint(0, 2)`, `scale_w`, `scale_h` and `scale` as
      parameters. The heterogeneous outline is the canonical one with one
      edge split: the arc round `pt2` at `pt23` (`num = 0`), the arc round
      `pt1` at `pt41` (`num = 1`), or the inner segment at
      `scale * pt3 + (1 - scale) * pt4` (`num = 2`). */
  function SegMaker(k: Oracle, bound: seq<Point>, hetero: bool, num: nat,
                    scaleW: real, scaleH: real, scale: real): (w: seq<Edge>)
    requires |bound| >= 3
    requires hetero ==> num <= 2 && IsPull(scaleW) && IsPull(scaleH) && IsScale(scale)
    ensures IsClosedChain(w)
    ensures var l := SlotLayout(k, bound);
            !hetero ==> w == Canonical(l)
    ensures var l := SlotLayout(k, bound);
            hetero && num == 0 ==> w == SplitChain(Canonical(l), 1, AtPoint(Pt23(k, l, scaleW, scaleH)))
    ensures var l := SlotLayout(k, bound);
            hetero && num == 1 ==> w == SplitChain(Canonical(l), 3, AtPoint(Pt41(k, l, scaleW, scaleH)))
    ensures var l := SlotLayout(k, bound);
            hetero && num == 2 ==> w == SplitChain(Canonical(l), 2, AtPoint(Lerp(scale, l.pt3, l.pt4)))
  {
    var l := SlotLayout(k, bound);
    var circ1, circ2 := Circle1(l), Circle2(l);
    if hetero then
      if num == 0 then
        var pt23 := Pt23(k, l, scaleW, scaleH);
        SplitKeepsClosed(Canonical(l), 1, AtPoint(pt23));
        [Segment(l.pt1, l.pt2), Arc(circ2, l.pt2, pt23), Arc(circ2, pt23, l.pt3),
         Segment(l.pt3, l.pt4), Arc(circ1, l.pt4, l.pt1)]
      else if num == 1 then
        var pt41 := Pt41(k, l, scaleW, scaleH);
        SplitKeepsClosed(Canonical(l), 3, AtPoint(pt41));
        [Segment(l.pt1, l.pt2), Arc(circ2, l.pt2, l.pt3), Segment(l.pt3, l.pt4),
         Arc(circ1, l.pt4, pt41), Arc(circ1, pt41, l.pt1)]
      else
        var pt34 := Lerp(scale, l.pt3, l.pt4);
        SplitKeepsClosed(Canonical(l), 2, AtPoint(pt34));
        [Segment(l.pt1, l.pt2), Arc(circ2, l.pt2, l.pt3), Segment(l.pt3, pt34),
         Segment(pt34, l.pt4), Arc(circ1, l.pt4, l.pt1)]
    else
      Canonical(l)
  }

  /** The index of the edge that draw `num` splits. */
  function SplitIndex(num: nat): nat
    requires num <= 2
  {
    if num == 0 then 1 else if num == 1 then 3 else 2
  }

  /** `_add_sketch(bound, hetero)` up to `BRepBuilderAPI_MakeFace`: the wire
      built from `seg_maker` edge by edge. It is closed, has four edges, or
      five when heterogeneous, and merging the split edge's halves gives back
      the canonical outline. */
  method AddSketch(k: Oracle, bound: seq<Point>, hetero: bool, num: nat,
                   scaleW: real, scaleH: real, scale: real) returns (wire: seq<Edge>)
    requires |bound| >= 3
    requires hetero ==> num <= 2 && IsPull(scaleW) && IsPull(scaleH) && IsScale(scale)
    ensures wire == SegMaker(k, bound, hetero, num, scaleW, scaleH, scale)
    ensures IsClosedChain(wire) && |wire| == (if hetero then 5 else 4)
    ensures hetero ==> Mergeable(wire[SplitIndex(num)], wire[SplitIndex(num) + 1])
                       && MergeChain(wire, SplitIndex(num)) == Canonical(SlotLayout(k, bound))
  {
    var segMaker := SegMaker(k, bound, hetero, num, scaleW, scaleH, scale);
    wire := MakeWire(segMaker);
    if hetero {
      var l := SlotLayout(k, bound);
      var cut := if num == 0 then AtPoint(Pt23(k, l, scaleW, scaleH))
                 else if num == 1 then AtPoint(Pt41(k, l, scaleW, scaleH))
                 else AtPoint(Lerp(scale, l.pt3, l.pt4));
      MergeUndoesSplit(Canonical(l), SplitIndex(num), cut);
    }
  }

  /** `dir_w` and `dir_h` are perpendicular unit vectors: the region is a
      rectangle and the kernel's `unit` is exact. */
  predicate Orthonormal(l: Layout) {
    Dot(l.dirW, l.dirW) == 1.0 && Dot(l.dirH, l.dirH) == 1.0 && Dot(l.dirW, l.dirH) == 0.0
  }

  /** On a rectangular region each end of the slot is a quarter circle: the
      arc round `pt2` runs from `pt2` (direction `dir_w` from `center2`) to
      `pt3` (direction `dir_h`), the arc round `pt1` from `pt4` (direction
      `dir_h` from `center1`) to `pt1` (direction `-dir_w`); all four points
      lie on their circles. */
  lemma EndCapsAreQuarterCircles(k: Oracle, bound: seq<Point>)
    requires |bound| >= 3 && Orthonormal(SlotLayout(k, bound))
    ensures var l := SlotLayout(k, bound);
            && Sub(l.pt2, l.center2) == Scale(l.rectH, l.dirW)
            && Sub(l.pt3, l.center2) == Scale(l.rectH, l.dirH)
            && Sub(l.pt4, l.center1) == Scale(l.rectH, l.dirH)
            && Sub(l.pt1, l.center1) == Scale(-l.rectH, l.dirW)
            && Dot(Scale(l.rectH, l.dirW), Scale(l.rectH, l.dirW)) == l.rectH * l.rectH
            && Dot(Scale(l.rectH, l.dirH), Scale(l.rectH, l.dirH)) == l.rectH * l.rectH
            && Dot(Scale(-l.rectH, l.dirW), Scale(-l.rectH, l.dirW)) == l.rectH * l.rectH
  {
    var l := SlotLayout(k, bound);
    DotScale(l.rectH, l.dirW);
    DotScale(l.rectH, l.dirH);
    DotScale(-l.rectH, l.dirW);
  }

  /** On a rectangular region with a positive `rect_h`, under Euclidean
      norms, the split point `pt23` lies on `circ2` strictly inside the
      quarter arc from `pt2` to `pt3`: both its components along `dir_w` and
      `dir_h` from `center2` are positive. */
  lemma Pt23InsideArc(k: Oracle, bound: seq<Point>, scaleW: real, scaleH: real)
    requires |bound| >= 3
    requires EuclideanNorm(k) && NormalizedUnits(k)
    requires Orthonormal(SlotLayout(k, bound)) && SlotLayout(k, bound).rectH > 0.0
    requires IsPull(scaleW) && IsPull(scaleH)
    ensures var l := SlotLayout(k, bound);
            var d := Sub(Pt23(k, l, scaleW, scaleH), l.center2);
            Dot(d, d) == l.rectH * l.rectH && Dot(d, l.dirW) > 0.0 && Dot(d, l.dirH) > 0.0
  {
    var l := SlotLayout(k, bound);
    var raw := Add(Scale(scaleW, l.dirW), Scale(scaleH, l.dirH));
    var d := Sub(Pt23(k, l, scaleW, scaleH), l.center2);
    SubAddCancel(l.center2, Scale(l.rectH, k.unit(raw)));
    assert d == Scale(l.rectH, k.unit(raw));
    assert scaleW > 0.0 && scaleH > 0.0;
    OffsetInsideQuarter(k, l.dirW, l.dirH, scaleW, scaleH, l.rectH);
    assert Dot(d, d) == l.rectH * l.rectH;
    assert Dot(d, l.dirW) > 0.0 && Dot(d, l.dirH) > 0.0;
  }

  /** On a rectangular region with a positive `rect_h`, under Euclidean
      norms, the split point `pt41` lies on `circ1` strictly inside the
      quarter arc from `pt4` to `pt1`: its components along `dir_h` and
      `-dir_w` from `center1` are positive. */
  lemma Pt41InsideArc(k: Oracle, bound: seq<Point>, scaleW: real, scaleH: real)
    requires |bound| >= 3
    requires EuclideanNorm(k) && NormalizedUnits(k)
    requires Orthonormal(SlotLayout(k, bound)) && SlotLayout(k, bound).rectH > 0.0
    requires IsPull(scaleW) && IsPull(scaleH)
    ensures var l := SlotLayout(k, bound);
            var d := Sub(Pt41(k, l, scaleW, scaleH), l.center1);
            Dot(d, d) == l.rectH * l.rectH && Dot(d, l.dirH) > 0.0 && Dot(d, l.dirW) < 0.0
  {
    var l := SlotLayout(k, bound);
    var raw := Add(Scale(-scaleH, l.dirW), Scale(scaleW, l.dirH));
    var d := Sub(Pt41(k, l, scaleW, scaleH), l.center1);
    SubAddCancel(l.center1, Scale(l.rectH, k.unit(raw)));
    assert d == Scale(l.rectH, k.unit(raw));
    assert -scaleH < 0.0 && scaleW > 0.0;
    OffsetInsideQuarter(k, l.dirW, l.dirH, -scaleH, scaleW, l.rectH);
    assert Dot(d, d) == l.rectH * l.rectH;
    assert Dot(d, l.dirH) > 0.0 && Dot(d, l.dirW) < 0.0;
  }

  /** `h` along the unit vector of `a * u + b * v`, for perpendicular unit
      vectors `u`, `v` and non-zero `a`, `b`, has length `h` and components
      of the signs of `a` and `b`. */
  lemma OffsetInsideQuarter(k: Oracle, u: Point, v: Point, a: real, b: real, h: real)
    requires EuclideanNorm(k) && NormalizedUnits(k)
    requires Dot(u, u) == 1.0 && Dot(v, v) == 1.0 && Dot(u, v) == 0.0
    requires a != 0.0 && b != 0.0 && h > 0.0
    ensures var d := Scale(h, k.unit(Add(Scale(a, u), Scale(b, v))));
            && Dot(d, d) == h * h
            && (a > 0.0 ==> Dot(d, u) > 0.0) && (a < 0.0 ==> Dot(d, u) < 0.0)
            && (b > 0.0 ==> Dot(d, v) > 0.0) && (b < 0.0 ==> Dot(d, v) < 0.0)
  {
    var raw := Add(Scale(a, u), Scale(b, v));
    Coordinates(u, v, a, b);
    assert raw != Origin by {
      assert Dot(Origin, u) == 0.0;
    }
    var n := k.norm(raw);
    assert n > 0.0;
    var e := k.unit(raw);
    assert e == Scale(1.0 / n, raw);
    UnitHasLengthOne(k, raw);
    DotScale(h, e);
    ScaledComponent(h, 1.0 / n, raw, u, a);
    ScaledComponent(h, 1.0 / n, raw, v, b);
  }

  /** The components of `a * u + b * v` along perpendicular unit vectors `u`
      and `v` are `a` and `b`. */
  lemma Coordinates(u: Point, v: Point, a: real, b: real)
    requires Dot(u, u) == 1.0 && Dot(v, v) == 1.0 && Dot(u, v) == 0.0
    ensures Dot(Add(Scale(a, u), Scale(b, v)), u) == a
    ensures Dot(Add(Scale(a, u), Scale(b, v)), v) == b
  {
    DotLinear(a, u, b, v, u);
    DotLinear(a, u, b, v, v);
    assert Dot(v, u) == Dot(u, v);
  }

  /** A component scaled by two positive factors keeps its sign. */
  lemma ScaledComponent(h: real, c: real, raw: Point, u: Point, a: real)
    requires h > 0.0 && c > 0.0 && Dot(raw, u) == a
    ensures a > 0.0 ==> Dot(Scale(h, Scale(c, raw)), u) > 0.0
    ensures a < 0.0 ==> Dot(Scale(h, Scale(c, raw)), u) < 0.0
  {
    DotScaleLeft(h, Scale(c, raw), u);
    DotScaleLeft(c, raw, u);
    var hc := h * c;
    assert hc > 0.0;
    assert Dot(Scale(h, Scale(c, raw)), u) == h * (c * a);
    assert h * (c * a) == hc * a;
    if a > 0.0 {
      assert hc * a > 0.0;
    } else if a < 0.0 {
      assert hc * a < 0.0;
    }
  }
}
