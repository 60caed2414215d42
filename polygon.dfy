/** Closed polygons as the ordered vertex lists handed to
    `occ_utils.face_polygon`, which joins each vertex to the next and the last
    back to the first. Every heterogeneous polygon profile in the catalog is
    its canonical polygon with one edge split at an interpolated vertex; this
    module defines that operation once, with its inverse and the facts that
    make it harmless to the outline. */
module Polygon {
  import opened Geometry

  /** `s[:i] + [p] + s[i:]`. */
  function InsertAt(s: seq<Point>, i: nat, p: Point): (r: seq<Point>)
    requires i <= |s|
    ensures |r| == |s| + 1 && r[i] == p
    ensures forall j :: 0 <= j < i ==> r[j] == s[j]
    ensures forall j :: i <= j < |s| ==> r[j + 1] == s[j]
  {
    s[..i] + [p] + s[i..]
  }

  /** `s[:i] + s[i + 1:]`: the vertex list without its vertex at index `i`. */
  function RemoveAt(s: seq<Point>, i: nat): (r: seq<Point>)
    requires i < |s|
    ensures |r| == |s| - 1
    ensures forall j :: 0 <= j < i ==> r[j] == s[j]
    ensures forall j :: i <= j < |r| ==> r[j] == s[j + 1]
  {
    s[..i] + s[i + 1..]
  }

  /** Deleting an inserted vertex gives back the original list. */
  lemma RemoveInserted(s: seq<Point>, i: nat, p: Point)
    requires i <= |s|
    ensures RemoveAt(InsertAt(s, i, p), i) == s
  {
  }

  /** The far end of edge `k`: the vertex after `s[k]`, wrapping to `s[0]`. */
  function Succ(s: seq<Point>, k: nat): Point
    requires k < |s|
  {
    if k + 1 < |s| then s[k + 1] else s[0]
  }

  /** Edge `k` of the closed polygon `s`, from `s[k]` to `Succ(s, k)`, replaced
      by two edges meeting at `scale * s[k] + (1 - scale) * Succ(s, k)`. */
  function SplitEdge(s: seq<Point>, k: nat, scale: real): (r: seq<Point>)
    requires k < |s|
    ensures |r| == |s| + 1
    ensures r[k + 1] == Lerp(scale, s[k], Succ(s, k))
    ensures RemoveAt(r, k + 1) == s
  {
    RemoveInserted(s, k + 1, Lerp(scale, s[k], Succ(s, k)));
    InsertAt(s, k + 1, Lerp(scale, s[k], Succ(s, k)))
  }

  /** For `0 < scale < 1` the inserted vertex lies strictly inside the edge it
      splits: a proper edge becomes two proper edges and the polygon gains a
      corner. */
  lemma SplitEdgeAddsCorner(s: seq<Point>, k: nat, scale: real)
    requires k < |s|
    requires 0.0 < scale < 1.0
    requires s[k] != Succ(s, k)
    ensures var r := SplitEdge(s, k, scale);
            r[k + 1] != s[k] && r[k + 1] != Succ(s, k)
  {
    LerpAvoidsEndpoints(scale, s[k], Succ(s, k));
  }

  /** The closed polygon `s` has an edge from `a` to `b`. */
  ghost predicate HasEdge(s: seq<Point>, a: Point, b: Point) {
    exists i :: 0 <= i < |s| && s[i] == a && Succ(s, i) == b
  }

  /** Splitting edge `k` keeps every other edge of the polygon. */
  lemma SplitEdgeKeepsOtherEdges(s: seq<Point>, k: nat, scale: real, j: nat)
    requires k < |s| && j < |s| && j != k
    ensures HasEdge(SplitEdge(s, k, scale), s[j], Succ(s, j))
  {
    var r := SplitEdge(s, k, scale);
    if j < k {
      assert r[j] == s[j] && Succ(r, j) == r[j + 1] == s[j + 1] == Succ(s, j);
      assert HasEdge(r, s[j], Succ(s, j));
    } else if j + 1 < |s| {
      assert r[j + 1] == s[j] && Succ(r, j + 1) == r[j + 2] == s[j + 1] == Succ(s, j);
      assert HasEdge(r, s[j], Succ(s, j));
    } else {
      assert r[j + 1] == s[j] && Succ(r, j + 1) == r[0] == s[0] == Succ(s, j);
      assert HasEdge(r, s[j], Succ(s, j));
    }
  }

  /** Sum of `Cross(s[i], s[i + 1])` along the open chain `s`. */
  function CrossChain(s: seq<Point>): Point
    decreases |s|
  {
    if |s| < 2 then Origin else Add(Cross(s[0], s[1]), CrossChain(s[1..]))
  }

  /** Twice the vector area of the closed polygon `s` (the shoelace sum, which
      for a planar polygon is its normal scaled by twice its area). */
  function VectorArea2(s: seq<Point>): Point {
    if |s| == 0 then Origin else Add(CrossChain(s), Cross(s[|s| - 1], s[0]))
  }

  /** Inserting `p` between `s[i - 1]` and `s[i]` trades one shoelace term for two. */
  lemma {:induction false} CrossChainInsertInterior(s: seq<Point>, i: nat, p: Point)
    requires 0 < i < |s|
    ensures Add(CrossChain(InsertAt(s, i, p)), Cross(s[i - 1], s[i]))
         == Add(CrossChain(s), Add(Cross(s[i - 1], p), Cross(p, s[i])))
    decreases i
  {
    var r := InsertAt(s, i, p);
    if i == 1 {
      assert r[1..] == [p] + s[1..];
      assert r[1..][1..] == s[1..];
    } else {
      assert r[1..] == InsertAt(s[1..], i - 1, p);
      CrossChainInsertInterior(s[1..], i - 1, p);
    }
  }

  /** Appending `p` adds the shoelace term from the old last vertex to `p`. */
  lemma {:induction false} CrossChainAppend(s: seq<Point>, p: Point)
    requires |s| >= 1
    ensures CrossChain(s + [p]) == Add(CrossChain(s), Cross(s[|s| - 1], p))
    decreases |s|
  {
    if |s| >= 2 {
      assert (s + [p])[1..] == s[1..] + [p];
      CrossChainAppend(s[1..], p);
    }
  }

  /** Splitting an edge at an interpolated vertex leaves the polygon's vector
      area unchanged: the heterogeneous outline encloses the same area, with the
      same orientation, as the canonical one. */
  lemma SplitEdgeKeepsArea(s: seq<Point>, k: nat, scale: real)
    requires k < |s|
    ensures VectorArea2(SplitEdge(s, k, scale)) == VectorArea2(s)
  {
    var p := Lerp(scale, s[k], Succ(s, k));
    var r := SplitEdge(s, k, scale);
    CrossThroughLerp(scale, s[k], Succ(s, k));
    if k + 1 < |s| {
      CrossChainInsertInterior(s, k + 1, p);
      assert r[|r| - 1] == s[|s| - 1] && r[0] == s[0];
    } else {
      assert r == s + [p];
      CrossChainAppend(s, p);
    }
  }
}
