/** Wires: the ordered edge chains that the circle-based features hand to
    `BRepBuilderAPI_MakeWire` before `BRepBuilderAPI_MakeFace`. The edge
    builders of the kernel are opaque; an edge is recorded by the arguments
    it was built from. */
module Wire {
  import opened Geometry

  /** One edge of a wire:
      - `Segment(a, b)`: `GC_MakeSegment(a, b)`;
      - `Arc(circle, a, b)`: `GC_MakeArcOfCircle(circle, a, b, True)`, the arc
        of `circle` from `a` to `b`;
      - `CircleArc(circle, t0, t1)`: `BRepBuilderAPI_MakeEdge(circle, t0, t1)`,
        the part of `circle` between the parameters `t0` and `t1`. */
  datatype Edge =
    | Segment(a: Point, b: Point)
    | Arc(circle: Circle, a: Point, b: Point)
    | CircleArc(circle: Circle, t0: real, t1: real)

  /** Edge `e` ends where edge `f` begins. */
  predicate Joins(e: Edge, f: Edge) {
    match e
    case CircleArc(c, _, t1) => f.CircleArc? && f.circle == c && f.t0 == t1
    case _ => !f.CircleArc? && e.b == f.a
  }

  /** Edge `last` ends where edge `first` begins, once around: for parameter
      ranges on one circle, the range has covered a full turn. */
  predicate Closes(last: Edge, first: Edge) {
    match last
    case CircleArc(c, _, t1) => first.CircleArc? && first.circle == c && t1 - first.t0 == 2.0 * PI
    case _ => !first.CircleArc? && last.b == first.a
  }

  /** A non-empty chain in which every edge ends where the next begins and
      the last ends where the first begins. */
  predicate IsClosedChain(w: seq<Edge>) {
    && |w| > 0
    && (forall i :: 0 <= i < |w| - 1 ==> Joins(w[i], w[i + 1]))
    && Closes(w[|w| - 1], w[0])
  }

  /** Where an edge is split: at a point for segments and arcs, at a
      parameter for parameter ranges. */
  datatype Cut = AtPoint(p: Point) | AtParam(t: real)

  predicate Fits(e: Edge, c: Cut) {
    e.CircleArc? <==> c.AtParam?
  }

  /** Edge `e` replaced by two edges of the same kind and carrier meeting at
      `c`: together they run from the start of `e` to its end. */
  function Split(e: Edge, c: Cut): (r: seq<Edge>)
    requires Fits(e, c)
    ensures |r| == 2 && Joins(r[0], r[1])
    ensures Mergeable(r[0], r[1]) && Join(r[0], r[1]) == e
  {
    match (e, c)
    case (Segment(a, b), AtPoint(p)) => [Segment(a, p), Segment(p, b)]
    case (Arc(circle, a, b), AtPoint(p)) => [Arc(circle, a, p), Arc(circle, p, b)]
    case (CircleArc(circle, t0, t1), AtParam(t)) => [CircleArc(circle, t0, t), CircleArc(circle, t, t1)]
  }

  /** Edge `k` of chain `w` split at `c`. */
  function SplitChain(w: seq<Edge>, k: nat, c: Cut): (r: seq<Edge>)
    requires k < |w| && Fits(w[k], c)
    ensures |r| == |w| + 1
  {
    w[..k] + Split(w[k], c) + w[k + 1..]
  }

  /** Two edges of the same kind on the same carrier. */
  predicate Mergeable(e: Edge, f: Edge) {
    || (e.Segment? && f.Segment?)
    || (e.Arc? && f.Arc? && e.circle == f.circle)
    || (e.CircleArc? && f.CircleArc? && e.circle == f.circle)
  }

  /** The single edge from the start of `e` to the end of `f`. */
  function Join(e: Edge, f: Edge): Edge
    requires Mergeable(e, f)
  {
    match e
    case Segment(a, _) => Segment(a, f.b)
    case Arc(circle, a, _) => Arc(circle, a, f.b)
    case CircleArc(circle, t0, _) => CircleArc(circle, t0, f.t1)
  }

  /** Edges `k` and `k + 1` of chain `w` merged into one. */
  function MergeChain(w: seq<Edge>, k: nat): (r: seq<Edge>)
    requires k + 1 < |w| && Mergeable(w[k], w[k + 1])
    ensures |r| == |w| - 1
  {
    w[..k] + [Join(w[k], w[k + 1])] + w[k + 2..]
  }

  /** Merging the two halves of a split edge gives back the original chain. */
  lemma MergeUndoesSplit(w: seq<Edge>, k: nat, c: Cut)
    requires k < |w| && Fits(w[k], c)
    ensures var r := SplitChain(w, k, c);
            Mergeable(r[k], r[k + 1]) && MergeChain(r, k) == w
  {
    var r := SplitChain(w, k, c);
    assert r[k..k + 2] == Split(w[k], c);
    assert r[..k] == w[..k] && r[k + 2..] == w[k + 1..];
    assert MergeChain(r, k) == w[..k] + [w[k]] + w[k + 1..];
  }

  /** Splitting an edge of a closed chain leaves it a closed chain. */
  lemma SplitKeepsClosed(w: seq<Edge>, k: nat, c: Cut)
    requires k < |w| && Fits(w[k], c)
    requires IsClosedChain(w)
    ensures IsClosedChain(SplitChain(w, k, c))
  {
    var r := SplitChain(w, k, c);
    var halves := Split(w[k], c);
    assert r[k] == halves[0] && r[k + 1] == halves[1];
    forall i | 0 <= i < |r| - 1
      ensures Joins(r[i], r[i + 1])
    {
      if i + 1 < k {
        assert r[i] == w[i] && r[i + 1] == w[i + 1];
      } else if i + 1 == k {
        assert r[i] == w[i] && Joins(w[i], w[k]);
      } else if i == k + 1 {
        assert r[i + 1] == w[k + 1] && Joins(w[k], w[k + 1]);
      } else if i > k + 1 {
        assert r[i] == w[i - 1] && r[i + 1] == w[i];
      }
    }
    assert r[|r| - 1] == (if k + 1 == |w| then halves[1] else w[|w| - 1]);
    assert r[0] == (if k == 0 then halves[0] else w[0]);
  }

  /** `BRepBuilderAPI_MakeWire()` filled edge by edge with `Add`. */
  class WireBuilder {
    var edges: seq<Edge>

    constructor ()
      ensures edges == []
    {
      edges := [];
    }

    method Add(e: Edge)
      modifies this
      ensures edges == old(edges) + [e]
    {
      edges := edges + [e];
    }
  }

  /** `for sm in seg_maker: wire_maker.Add(BRepBuilderAPI_MakeEdge(sm.Value()).Edge())`:
      the wire holds the edges in the order they were made. */
  method MakeWire(makers: seq<Edge>) returns (wire: seq<Edge>)
    ensures wire == makers
  {
    var builder := new WireBuilder();
    for i := 0 to |makers|
      invariant builder.edges == makers[..i]
    {
      builder.Add(makers[i]);
    }
    wire := builder.edges;
  }
}
