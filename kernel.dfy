/** The numpy and OCC operations that the feature rules call but that the
    model does not compute: they are passed in as one record of functions.
    Lemmas that need them to behave like Euclidean geometry say so with the
    predicates below. */
module Kernel {
  import opened Geometry
  import opened Wire

  datatype Oracle = Oracle(
    /** `np.linalg.norm(v)`. */
    norm: Point -> real,
    /** `v / np.linalg.norm(v)`. */
    unit: Point -> Point,
    /** `Geom_Circle(gp_Ax2(center, axis), radius).Value(u)`. */
    circleValue: (Circle, real) -> Point,
    /** `occ_utils.rotate_vector(v, angle, axis)`. */
    rotate: (Point, real, Point) -> Point,
    /** `BRepBuilderAPI_MakeFace(wire)` completes without a `RuntimeError`. */
    makesFace: seq<Edge> -> bool)

  /** `norm` is the Euclidean length: never negative, zero only for the zero
      vector, and squaring to the dot product. */
  ghost predicate EuclideanNorm(k: Oracle) {
    forall v :: && k.norm(v) >= 0.0
                && (k.norm(v) == 0.0 <==> v == Origin)
                && k.norm(v) * k.norm(v) == Dot(v, v)
  }

  /** `unit` divides a vector of non-zero length by that length. */
  ghost predicate NormalizedUnits(k: Oracle) {
    forall v :: k.norm(v) != 0.0 ==> k.unit(v) == Scale(1.0 / k.norm(v), v)
  }

  /** `rotate` keeps lengths. */
  ghost predicate RotationKeepsLength(k: Oracle) {
    forall v, angle, axis :: Dot(k.rotate(v, angle, axis), k.rotate(v, angle, axis)) == Dot(v, v)
  }

  /** `circ.Value(u)` lies on the circle: at the circle's radius from its
      centre. */
  ghost predicate CircleValueOnCircle(k: Oracle) {
    forall c: Circle, t: real ::
      Dot(Sub(k.circleValue(c, t), c.center), Sub(k.circleValue(c, t), c.center)) == c.radius * c.radius
  }

  /** On a circle of positive radius, `circ.Value` takes no point twice
      within less than a full turn. */
  ghost predicate CircleValueOneTurn(k: Oracle) {
    forall c: Circle, t: real, u: real ::
      c.radius > 0.0 && 0.0 < u - t < 2.0 * PI ==> k.circleValue(c, t) != k.circleValue(c, u)
  }

  /** Parameters any two of which are less than a full turn apart, one way
      or the other. */
  predicate ApartWithinTurn(a: seq<real>) {
    forall i, j :: 0 <= i < |a| && 0 <= j < |a| && i != j ==>
      0.0 < a[j] - a[i] < 2.0 * PI || 0.0 < a[i] - a[j] < 2.0 * PI
  }

  /** On such a kernel, the values at any parameters lie on the circle. */
  lemma CircleValuesOnCircle(k: Oracle, c: Circle, a: seq<real>)
    ensures CircleValueOnCircle(k) ==>
              forall i :: 0 <= i < |a| ==>
                Dot(Sub(k.circleValue(c, a[i]), c.center), Sub(k.circleValue(c, a[i]), c.center)) == c.radius * c.radius
  {
    if CircleValueOnCircle(k) {
      forall i | 0 <= i < |a|
        ensures Dot(Sub(k.circleValue(c, a[i]), c.center), Sub(k.circleValue(c, a[i]), c.center)) == c.radius * c.radius
      {
        var t := a[i];
        assert Dot(Sub(k.circleValue(c, t), c.center), Sub(k.circleValue(c, t), c.center)) == c.radius * c.radius;
      }
    }
  }

  /** On such a kernel and a circle of positive radius, parameters less than
      a turn apart give pairwise distinct points. */
  lemma CircleValuesDistinct(k: Oracle, c: Circle, a: seq<real>)
    ensures CircleValueOneTurn(k) && c.radius > 0.0 && ApartWithinTurn(a) ==>
              forall i, j :: 0 <= i < |a| && 0 <= j < |a| && i != j ==>
                k.circleValue(c, a[i]) != k.circleValue(c, a[j])
  {
    if CircleValueOneTurn(k) && c.radius > 0.0 && ApartWithinTurn(a) {
      forall i, j | 0 <= i < |a| && 0 <= j < |a| && i != j
        ensures k.circleValue(c, a[i]) != k.circleValue(c, a[j])
      {
        if !(0.0 < a[j] - a[i] < 2.0 * PI) {
          assert 0.0 < a[i] - a[j] < 2.0 * PI;
        }
      }
    }
  }

  /** A Euclidean `unit` of a non-zero vector has length one. */
  lemma UnitHasLengthOne(k: Oracle, v: Point)
    requires EuclideanNorm(k) && NormalizedUnits(k)
    requires v != Origin
    ensures Dot(k.unit(v), k.unit(v)) == 1.0
  {
    var n := k.norm(v);
    assert n > 0.0 && n * n == Dot(v, v);
    DotScale(1.0 / n, v);
    InverseSquare(n, Dot(v, v));
  }

  lemma InverseSquare(n: real, d: real)
    requires n > 0.0 && n * n == d
    ensures (1.0 / n) * (1.0 / n) * d == 1.0
  {
    assert (1.0 / n) * n == 1.0;
    calc {
      (1.0 / n) * (1.0 / n) * d;
      (1.0 / n) * (1.0 / n) * (n * n);
      ((1.0 / n) * n) * ((1.0 / n) * n);
    }
  }
}
