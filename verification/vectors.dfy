/** The static algebra of the editor's `V2` value type: a 2D point or
    vector with real coordinates. The source's mutating helpers (`addV2`,
    `setV2`, `multiplyScalar`, `storeProjection`, ...) overwrite their
    receiver with the same value the pure functions here return. */
module Vectors {

  datatype V2 = V2(x: real, y: real)

  datatype Option<T> = None | Some(value: T)

  const Zero: V2 := V2(0.0, 0.0)

  function Add(a: V2, b: V2): V2 {
    V2(a.x + b.x, a.y + b.y)
  }

  function Subtract(a: V2, b: V2): V2 {
    V2(a.x - b.x, a.y - b.y)
  }

  /** `multiplyScalar` */
  function Scale(v: V2, s: real): V2 {
    V2(v.x * s, v.y * s)
  }

  function Dot(a: V2, b: V2): real {
    a.x * b.x + a.y * b.y
  }

  /** `magnitudeSq` */
  function MagnitudeSq(v: V2): real {
    v.x * v.x + v.y * v.y
  }

  /** Only the zero vector has zero length. */
  lemma MagnitudeSqIsZeroOnlyAtZero(v: V2)
    ensures MagnitudeSq(v) == 0.0 <==> v == Zero
  {
    if v != Zero {
      SumOfSquaresIsPositive(v.x, v.y);
      // the solver does not connect the unfolded squares to the lemma's
      // terms on its own
      calc {
        MagnitudeSq(v);
      ==
        v.x * v.x + v.y * v.y;
      >
        0.0;
      }
    }
  }

  lemma SquareIsPositive(a: real)
    requires a != 0.0
    ensures a * a > 0.0
  {
    if a < 0.0 {
      assert a * a == (-a) * (-a);
    }
  }

  lemma SquareIsNonNegative(a: real)
    ensures a * a >= 0.0
  {
    if a != 0.0 {
      SquareIsPositive(a);
    }
  }

  lemma SumOfSquaresIsPositive(a: real, b: real)
    requires a != 0.0 || b != 0.0
    ensures a * a + b * b > 0.0
  {
    if a != 0.0 {
      SquareIsPositive(a);
      SquareIsNonNegative(b);
    } else {
      SquareIsPositive(b);
      SquareIsNonNegative(a);
    }
  }

  /** The z-component of the planar cross product; zero exactly when the
      two vectors are parallel (or one of them is zero). */
  function Cross(a: V2, b: V2): real {
    a.x * b.y - a.y * b.x
  }

  /** Twice the signed area of the triangle (start, end, point). In canvas
      coordinates (y grows downward) it is positive when `point` lies to the
      right of the directed line start -> end, negative to the left and zero
      on the line. */
  function GetSide(start: V2, end: V2, point: V2): (s: real)
    ensures s == Cross(Subtract(end, start), Subtract(point, start))
  {
    (end.x - start.x) * (point.y - start.y) - (end.y - start.y) * (point.x - start.x)
  }

  /** The component of `v1` along `v2`. The source divides by
      `v2.magnitudeSq`, so a zero `v2` yields a NaN vector; that case is
      `None` here. Otherwise the result is parallel to `v2` and leaves a
      residual orthogonal to `v2`, which characterises it uniquely (see
      ProjectIsUnique). */
  function Project(v1: V2, v2: V2): (r: Option<V2>)
    ensures r.None? <==> v2 == Zero
    ensures r.Some? ==> Cross(r.value, v2) == 0.0
    ensures r.Some? ==> Dot(Subtract(v1, r.value), v2) == 0.0
  {
    // the source's division by `magnitudeSq` fails exactly for the zero vector
    if v2 == Zero then None else Some(ProjectNonZero(v1, v2))
  }

  /** `V2.clone(v2).storeProjection(v1, v2)` for a target of nonzero length:
      `v2` scaled by `dot(v1, v2) / v2.magnitudeSq`. */
  function ProjectNonZero(v1: V2, v2: V2): (p: V2)
    requires v2 != Zero
    ensures Cross(p, v2) == 0.0
    ensures Dot(Subtract(v1, p), v2) == 0.0
  {
    MagnitudeSqIsZeroOnlyAtZero(v2);
    var k := Dot(v1, v2) / MagnitudeSq(v2);
    ScaledProjectionProperties(v1, v2, k);
    Scale(v2, k)
  }

  /** The arithmetic behind the projection's contract. */
  lemma ScaledProjectionProperties(v1: V2, v2: V2, k: real)
    requires MagnitudeSq(v2) != 0.0
    requires k == Dot(v1, v2) / MagnitudeSq(v2)
    ensures Cross(Scale(v2, k), v2) == 0.0
    ensures Dot(Subtract(v1, Scale(v2, k)), v2) == 0.0
  {
    var m := MagnitudeSq(v2);
    assert k * m == Dot(v1, v2);
    assert Dot(Scale(v2, k), v2) == k * m;
    assert Dot(Subtract(v1, Scale(v2, k)), v2) == Dot(v1, v2) - Dot(Scale(v2, k), v2);
  }

  lemma SubtractUndoesAdd(a: V2, b: V2)
    ensures Subtract(Add(a, b), b) == a
  {
  }

  lemma AddUndoesSubtract(a: V2, b: V2)
    ensures Add(Subtract(a, b), b) == a
  {
  }

  lemma DotIsSymmetric(a: V2, b: V2)
    ensures Dot(a, b) == Dot(b, a)
  {
  }

  /** Reversing the direction of the line flips the side. */
  lemma GetSideSwapNegates(s: V2, e: V2, p: V2)
    ensures GetSide(s, e, p) == -GetSide(e, s, p)
  {
  }

  /** Both endpoints of a line lie on it. */
  lemma GetSideOfEndpointsIsZero(s: V2, e: V2)
    ensures GetSide(s, e, s) == 0.0
    ensures GetSide(s, e, e) == 0.0
  {
  }

  /** Shifting the line and the point by the same offset keeps the side. */
  lemma GetSideIsTranslationInvariant(s: V2, e: V2, p: V2, d: V2)
    ensures GetSide(Add(s, d), Add(e, d), Add(p, d)) == GetSide(s, e, p)
  {
  }

  /** Write a point as `start + t·d + u·n`, where `d = end - start` is the
      line's direction and `n = (-d.y, d.x)` its normal, which points to the
      right of `d` when y grows downward. The side value is then `u` times
      the squared length of `d`: only the offset across the line counts,
      and the position along it does not. */
  lemma GetSideMeasuresNormalOffset(s: V2, e: V2, t: real, u: real)
    ensures var d := Subtract(e, s);
      GetSide(s, e, Add(s, Add(Scale(d, t), Scale(V2(-d.y, d.x), u)))) == u * MagnitudeSq(d)
  {
  }

  /** For a line of nonzero length the side value is zero exactly on the
      line, positive exactly to its right and negative exactly to its left. */
  lemma GetSideSignIsSide(s: V2, e: V2, t: real, u: real)
    requires s != e
    ensures var d := Subtract(e, s);
      var side := GetSide(s, e, Add(s, Add(Scale(d, t), Scale(V2(-d.y, d.x), u))));
      (side == 0.0 <==> u == 0.0) && (side > 0.0 <==> u > 0.0) && (side < 0.0 <==> u < 0.0)
  {
    var d := Subtract(e, s);
    assert d != Zero;
    MagnitudeSqIsZeroOnlyAtZero(d);
    GetSideMeasuresNormalOffset(s, e, t, u);
  }

  /** A vector parallel to a nonzero `v2` is `v2` scaled by its
      coordinate along `v2`. */
  lemma ParallelIsScalarMultiple(p: V2, v2: V2)
    requires v2 != Zero && Cross(p, v2) == 0.0
    ensures MagnitudeSq(v2) != 0.0
    ensures p == Scale(v2, Dot(p, v2) / MagnitudeSq(v2))
  {
    MagnitudeSqIsZeroOnlyAtZero(v2);
    var m := MagnitudeSq(v2);
    var k := Dot(p, v2) / m;
    assert Dot(p, v2) * v2.x == p.x * m + Cross(p, v2) * v2.y;
    assert Dot(p, v2) * v2.y == p.y * m - Cross(p, v2) * v2.x;
    assert k * m == Dot(p, v2);
    assert v2.x * k * m == p.x * m;
    assert v2.y * k * m == p.y * m;
  }

  /** The projection onto a nonzero target is a scalar multiple of the
      target, with the same coordinate along the target as `v1`; this
      follows from the contract of Project alone. */
  lemma ProjectIsScalarMultiple(v1: V2, v2: V2)
    requires v2 != Zero
    ensures exists k :: Project(v1, v2) == Some(Scale(v2, k))
    ensures Dot(Project(v1, v2).value, v2) == Dot(v1, v2)
  {
    var p := Project(v1, v2).value;
    ParallelIsScalarMultiple(p, v2);
    assert Project(v1, v2) == Some(Scale(v2, Dot(p, v2) / MagnitudeSq(v2)));
    assert Dot(Subtract(v1, p), v2) == Dot(v1, v2) - Dot(p, v2);
  }

  /** Projecting a nonzero vector onto itself returns it. */
  lemma ProjectOntoSelf(v: V2)
    requires v != Zero
    ensures Project(v, v) == Some(v)
  {
    MagnitudeSqIsZeroOnlyAtZero(v);
    var m := MagnitudeSq(v);
    assert Dot(v, v) == m;
    assert Dot(v, v) / m == 1.0;
  }

  /** Any vector parallel to `v2` whose residual is orthogonal to `v2` is
      the projection: the contract of Project pins its result down. */
  lemma ProjectIsUnique(v1: V2, v2: V2, w: V2)
    requires v2 != Zero
    requires Cross(w, v2) == 0.0
    requires Dot(Subtract(v1, w), v2) == 0.0
    ensures Project(v1, v2) == Some(w)
  {
    var p := Project(v1, v2).value;
    var d := Subtract(w, p);
    // d is parallel to v2 and orthogonal to v2, hence zero
    assert Cross(d, v2) == 0.0;
    assert Dot(d, v2) == 0.0;
    assert Cross(d, v2) * v2.y + Dot(d, v2) * v2.x == d.x * MagnitudeSq(v2);
    assert Dot(d, v2) * v2.y - Cross(d, v2) * v2.x == d.y * MagnitudeSq(v2);
    assert d.x == 0.0 && d.y == 0.0;
  }
}
