/** Quadrilaterals (parallelograms) `Q + a u + b v` for `a, b` in [0, 1]:
    the plane test, the planar coordinates of the hit point and the box
    around the four corners. */
module Quads {
  import opened Wrappers
  import opened ExtReals
  import opened MathLib
  import opened Vec
  import opened Rays
  import opened Intervals
  import opened Aabbs
  import opened Hittables

  /** Below this magnitude `normal . direction` counts as parallel. */
  const ParallelEps: real := 0.00000001

  /** `fabs(denom) < 1e-8`: the ray runs (almost) parallel to the plane. */
  predicate Parallel(normal: Vector3, dir: Vector3)
  {
    Abs(Dot(normal, dir)) < ParallelEps
  }

  /** `t = (d - normal . origin) / denom`, the parameter at which the ray
      meets the plane `normal . p = d`. */
  function PlaneParameter(normal: Vector3, d: real, ray: Ray): real
    requires Dot(normal, ray.dir) != 0.0
  {
    (d - Dot(normal, ray.orig)) / Dot(normal, ray.dir)
  }

  /** `(alpha, beta) = (w . (p x v), w . (u x p))` for `p` the hit point
      relative to `Q`. */
  function PlanarCoordinates(u: Vector3, v: Vector3, w: Vector3, planar: Vector3): (real, real)
  {
    (Dot(w, Cross(planar, v)), Dot(w, Cross(u, planar)))
  }

  /** `_is_interior`'s test: both coordinates in the closed [0, 1]. */
  predicate Interior(alpha: real, beta: real)
  {
    var unit := Interval(Fin(0.0), Fin(1.0));
    Contains(unit, Fin(alpha)) && Contains(unit, Fin(beta))
  }

  lemma InteriorBounds(alpha: real, beta: real)
    ensures Interior(alpha, beta) <==> 0.0 <= alpha <= 1.0 && 0.0 <= beta <= 1.0
  {
  }

  // ----- the plane -----

  lemma DivMulCancel(x: real, y: real)
    requires y != 0.0
    ensures (x / y) * y == x
  {
  }

  /** The dot product with a point on the ray grows linearly along it. */
  lemma DotAlong(n: Vector3, ray: Ray, t: real)
    ensures Dot(n, At(ray, t)) == Dot(n, ray.orig) + t * Dot(n, ray.dir)
  {
  }

  /** The point the ray reaches at `PlaneParameter` lies on the plane
      `normal . p = d`. */
  lemma {:induction false} PlaneParameterOnPlane(normal: Vector3, d: real, ray: Ray)
    requires Dot(normal, ray.dir) != 0.0
    ensures Dot(normal, At(ray, PlaneParameter(normal, d, ray))) == d
  {
    var t := PlaneParameter(normal, d, ray);
    DotAlong(normal, ray, t);
    DivMulCancel(d - Dot(normal, ray.orig), Dot(normal, ray.dir));
  }

  /** It is the only point of the ray on that plane. */
  lemma {:induction false} PlaneParameterUnique(normal: Vector3, d: real, ray: Ray, t: real)
    requires Dot(normal, ray.dir) != 0.0
    requires Dot(normal, At(ray, t)) == d
    ensures t == PlaneParameter(normal, d, ray)
  {
    DotAlong(normal, ray, t);
  }

  // ----- planar coordinates -----

  /** `w = n / (n . n)` for `n = u x v`. */
  function PlaneW(u: Vector3, v: Vector3): Vector3
    requires Cross(u, v) != Zero
  {
    var n := Cross(u, v);
    DotSelf(n);
    Div(n, Dot(n, n))
  }

  lemma DotSelf(v: Vector3)
    ensures Dot(v, v) == LengthSquared(v)
  {
  }

  /** `m s - n r == k a` for `m = p a + r b`, `n = q a + s b` and
      `k = p s - q r`,
      spelt out step by step. */
  lemma CombineLeft(p: real, q: real, r: real, s: real, a: real, b: real, m: real, n: real, k: real)
    requires m == p * a + r * b && n == q * a + s * b && k == p * s - q * r
    ensures m * s - n * r == k * a
  {
    assert m * s == (p * a) * s + (r * b) * s;
    assert n * r == (q * a) * r + (s * b) * r;
    assert (r * b) * s == (s * b) * r;
    assert (p * a) * s == (p * s) * a;
    assert (q * a) * r == (q * r) * a;
    assert k * a == (p * s) * a - (q * r) * a;
  }

  /** `p n - q m == k b` for `m = p a + r b`, `n = q a + s b` and
      `k = p s - q r`,
      spelt out step by step. */
  lemma CombineRight(p: real, q: real, r: real, s: real, a: real, b: real, m: real, n: real, k: real)
    requires m == p * a + r * b && n == q * a + s * b && k == p * s - q * r
    ensures p * n - q * m == k * b
  {
    assert p * n == p * (q * a) + p * (s * b);
    assert q * m == q * (p * a) + q * (r * b);
    assert p * (q * a) == q * (p * a);
    assert p * (s * b) == (p * s) * b;
    assert q * (r * b) == (q * r) * b;
    assert k * b == (p * s) * b - (q * r) * b;
  }

  lemma CrossLeftX(u: Vector3, v: Vector3, a: real, b: real)
    ensures Cross(Add(Scale(u, a), Scale(v, b)), v).x == Cross(u, v).x * a
  {
    var w := Add(Scale(u, a), Scale(v, b));
    CombineLeft(u.y, u.z, v.y, v.z, a, b, w.y, w.z, Cross(u, v).x);
  }

  lemma CrossLeftY(u: Vector3, v: Vector3, a: real, b: real)
    ensures Cross(Add(Scale(u, a), Scale(v, b)), v).y == Cross(u, v).y * a
  {
    var w := Add(Scale(u, a), Scale(v, b));
    CombineLeft(u.z, u.x, v.z, v.x, a, b, w.z, w.x, Cross(u, v).y);
  }

  lemma CrossLeftZ(u: Vector3, v: Vector3, a: real, b: real)
    ensures Cross(Add(Scale(u, a), Scale(v, b)), v).z == Cross(u, v).z * a
  {
    var w := Add(Scale(u, a), Scale(v, b));
    CombineLeft(u.x, u.y, v.x, v.y, a, b, w.x, w.y, Cross(u, v).z);
  }

  lemma CrossRightX(u: Vector3, v: Vector3, a: real, b: real)
    ensures Cross(u, Add(Scale(u, a), Scale(v, b))).x == Cross(u, v).x * b
  {
    var w := Add(Scale(u, a), Scale(v, b));
    CombineRight(u.y, u.z, v.y, v.z, a, b, w.y, w.z, Cross(u, v).x);
  }

  lemma CrossRightY(u: Vector3, v: Vector3, a: real, b: real)
    ensures Cross(u, Add(Scale(u, a), Scale(v, b))).y == Cross(u, v).y * b
  {
    var w := Add(Scale(u, a), Scale(v, b));
    CombineRight(u.z, u.x, v.z, v.x, a, b, w.z, w.x, Cross(u, v).y);
  }

  lemma CrossRightZ(u: Vector3, v: Vector3, a: real, b: real)
    ensures Cross(u, Add(Scale(u, a), Scale(v, b))).z == Cross(u, v).z * b
  {
    var w := Add(Scale(u, a), Scale(v, b));
    CombineRight(u.x, u.y, v.x, v.y, a, b, w.x, w.y, Cross(u, v).z);
  }

  lemma {:induction false} CrossCombinationLeft(u: Vector3, v: Vector3, a: real, b: real)
    ensures Cross(Add(Scale(u, a), Scale(v, b)), v) == Scale(Cross(u, v), a)
  {
    CrossLeftX(u, v, a, b);
    CrossLeftY(u, v, a, b);
    CrossLeftZ(u, v, a, b);
  }

  lemma {:induction false} CrossCombinationRight(u: Vector3, v: Vector3, a: real, b: real)
    ensures Cross(u, Add(Scale(u, a), Scale(v, b))) == Scale(Cross(u, v), b)
  {
    CrossRightX(u, v, a, b);
    CrossRightY(u, v, a, b);
    CrossRightZ(u, v, a, b);
  }

  lemma DotDivScale(n: Vector3, k: real, a: real)
    requires Dot(n, n) == k && k != 0.0
    ensures Dot(Div(n, k), Scale(n, a)) == a
  {
    assert Dot(Div(n, k), Scale(n, a)) == (a / k) * Dot(n, n);
    DivMulCancel(a, k);
  }

  /** `alpha` and `beta` are the coordinates of the hit point along `u`
      and `v`: a point `Q + a u + b v` of the plane gets `(a, b)`. */
  lemma {:induction false} PlanarCoordinatesOfCombination(u: Vector3, v: Vector3, a: real, b: real)
    requires Cross(u, v) != Zero
    ensures PlanarCoordinates(u, v, PlaneW(u, v), Add(Scale(u, a), Scale(v, b))) == (a, b)
  {
    var n := Cross(u, v);
    DotSelf(n);
    CrossCombinationLeft(u, v, a, b);
    CrossCombinationRight(u, v, a, b);
    DotDivScale(n, Dot(n, n), a);
    DotDivScale(n, Dot(n, n), b);
  }

  // ----- bounding box -----

  /** `_set_bounding_box`: the boxes spanned by the two diagonals,
      `Q .. Q + u + v` and `Q + u .. Q + v`, merged. */
  function QuadBox(q: Point3, u: Vector3, v: Vector3): Aabb
  {
    var diagonal0 := Construct(None, None, None, Some(q), Some(Add(Add(q, u), v)), None, None).value;
    var diagonal1 := Construct(None, None, None, Some(Add(q, u)), Some(Add(q, v)), None, None).value;
    Construct(None, None, None, None, None, Some(diagonal0), Some(diagonal1)).value
  }

  lemma CoordAdd(a: Vector3, b: Vector3, n: nat)
    requires n < 3
    ensures Coord(Add(a, b), n) == Coord(a, n) + Coord(b, n)
  {
  }

  lemma CoordScale(a: Vector3, k: real, n: nat)
    requires n < 3
    ensures Coord(Scale(a, k), n) == Coord(a, n) * k
  {
  }

  /** An ordered axis contains whatever lies between its ends. */
  lemma BetweenOrdered(i: Interval, p: real)
    requires Le(i.min, i.max) && Between(i, p)
    ensures Contains(i, Fin(p))
  {
    if !Contains(i, Fin(p)) {
      LeTrans(i.max, Fin(p), i.min);
      LeAntisym(i.min, i.max);
    }
  }

  /** `xa` lies between 0 and `x`, whatever the sign of `x`. */
  predicate Fraction(x: real, xa: real)
  {
    if x < 0.0 then x <= xa <= 0.0 else 0.0 <= xa <= x
  }

  lemma FractionOf(x: real, a: real)
    requires 0.0 <= a <= 1.0
    ensures Fraction(x, x * a)
  {
    FractionBetween(x, a);
  }

  /** The interval holds the four values `p`, `p + x`, `p + y` and
      `p + x + y`: one axis of the corners `Q`, `Q + u`, `Q + v`,
      `Q + u + v`. */
  predicate HoldsCorners(i: Interval, p: real, x: real, y: real)
  {
    Contains(i, Fin(p)) && Contains(i, Fin(p + x)) && Contains(i, Fin(p + y)) && Contains(i, Fin(p + x + y))
  }

  /** An interval holding the four values `p`, `p + x`, `p + y`,
      `p + x + y` holds `p + xa + yb` for fractions `xa` of `x` and `yb`
      of `y`. */
  lemma {:induction false} AxisHull(i: Interval, p: real, x: real, y: real, xa: real, yb: real)
    requires HoldsCorners(i, p, x, y)
    requires Fraction(x, xa) && Fraction(y, yb)
    ensures Contains(i, Fin(p + xa + yb))
  {
    var c := p + xa + yb;
    var lo := p + (if x < 0.0 then x else 0.0) + (if y < 0.0 then y else 0.0);
    var hi := p + (if x < 0.0 then 0.0 else x) + (if y < 0.0 then 0.0 else y);
    assert Contains(i, Fin(lo)) && Contains(i, Fin(hi));
    assert Le(Fin(lo), Fin(c)) && Le(Fin(c), Fin(hi));
    LeTrans(i.min, Fin(lo), Fin(c));
    LeTrans(Fin(c), Fin(hi), i.max);
  }

  /** Each axis of a two-point box contains both points' coordinates. */
  lemma {:induction false} DiagonalAxis(a: Point3, b: Point3, n: nat)
    requires n < 3
    ensures var i := AxisOf(PadToMinimums(FromPoints(a, b)), n);
      Contains(i, Fin(Coord(a, n))) && Contains(i, Fin(Coord(b, n)))
  {
    var f := FromPoints(a, b);
    PointsAxis(a, b, n);
    assert Contains(AxisOf(f, n), Fin(Coord(a, n))) && Contains(AxisOf(f, n), Fin(Coord(b, n)));
    assert AxisOf(PadToMinimums(f), n) == PadAxis(AxisOf(f, n));
  }

  /** Axis `n` of the two diagonal boxes, merged (before padding). */
  function DiagonalMerge(q: Point3, u: Vector3, v: Vector3, n: nat): Interval
    requires n < 3
  {
    var d0 := PadToMinimums(FromPoints(q, Add(Add(q, u), v)));
    var d1 := PadToMinimums(FromPoints(Add(q, u), Add(q, v)));
    Merge(AxisOf(d0, n), AxisOf(d1, n))
  }

  lemma QuadBoxAxisIsPadded(q: Point3, u: Vector3, v: Vector3, n: nat)
    requires n < 3
    ensures AxisOf(QuadBox(q, u, v), n) == PadAxis(DiagonalMerge(q, u, v, n))
  {
  }

  /** The merged diagonal axis holds the coordinates of all four corners. */
  lemma {:induction false} CornersInMerge(q: Point3, u: Vector3, v: Vector3, n: nat)
    requires n < 3
    ensures HoldsCorners(DiagonalMerge(q, u, v, n), Coord(q, n), Coord(u, n), Coord(v, n))
  {
    var c0, c1, c2, c3 := q, Add(q, u), Add(q, v), Add(Add(q, u), v);
    DiagonalAxis(c0, c3, n);
    DiagonalAxis(c1, c2, n);
    var d0 := PadToMinimums(FromPoints(c0, c3));
    var d1 := PadToMinimums(FromPoints(c1, c2));
    CoordAdd(q, u, n);
    CoordAdd(q, v, n);
    CoordAdd(c1, v, n);
    MergeCorners(AxisOf(d0, n), AxisOf(d1, n), Coord(q, n), Coord(u, n), Coord(v, n),
                 Coord(c1, n), Coord(c2, n), Coord(c3, n));
  }

  lemma MergeCorners(a: Interval, b: Interval, p: real, x: real, y: real, c1: real, c2: real, c3: real)
    requires Contains(a, Fin(p)) && Contains(a, Fin(c3)) && Contains(b, Fin(c1)) && Contains(b, Fin(c2))
    requires c1 == p + x && c2 == p + y && c3 == p + x + y
    ensures HoldsCorners(Merge(a, b), p, x, y)
  {
    MergeCovers(a, b);
  }

  /** Component `n` of `u a` is a fraction of component `n` of `u`. */
  lemma {:induction false} ScaledFraction(u: Vector3, a: real, n: nat)
    requires n < 3 && 0.0 <= a <= 1.0
    ensures Fraction(Coord(u, n), Coord(Scale(u, a), n))
  {
    CoordScale(u, a, n);
    FractionOf(Coord(u, n), a);
  }

  /** Each axis of the quad's box holds the coordinates of all four
      corners. */
  lemma {:induction false} CornersInBox(q: Point3, u: Vector3, v: Vector3, n: nat)
    requires n < 3
    ensures HoldsCorners(AxisOf(QuadBox(q, u, v), n), Coord(q, n), Coord(u, n), Coord(v, n))
  {
    CornersInMerge(q, u, v, n);
    PaddedCorners(DiagonalMerge(q, u, v, n), Coord(q, n), Coord(u, n), Coord(v, n));
    QuadBoxAxisIsPadded(q, u, v, n);
  }

  lemma PaddedCorners(m: Interval, p: real, x: real, y: real)
    requires HoldsCorners(m, p, x, y)
    ensures HoldsCorners(PadAxis(m), p, x, y)
  {
    PaddedContains(m, p);
    PaddedContains(m, p + x);
    PaddedContains(m, p + y);
    PaddedContains(m, p + x + y);
  }

  /** One axis of `QuadBoxContains`: an interval holding the four corners'
      coordinates holds the coordinate of `Q + ua + vb` when the
      components of `ua`, `vb` are fractions of those of `u` and `v`. */
  lemma {:induction false} HullAxis(i: Interval, q: Point3, u: Vector3, v: Vector3, ua: Vector3, vb: Vector3, n: nat)
    requires n < 3 && Fraction(Coord(u, n), Coord(ua, n)) && Fraction(Coord(v, n), Coord(vb, n))
    requires HoldsCorners(i, Coord(q, n), Coord(u, n), Coord(v, n))
    ensures Contains(i, Fin(Coord(Add(Add(q, ua), vb), n)))
  {
    CoordAdd(q, ua, n);
    CoordAdd(Add(q, ua), vb, n);
    AxisHull(i, Coord(q, n), Coord(u, n), Coord(v, n), Coord(ua, n), Coord(vb, n));
  }

  lemma PaddedContains(m: Interval, c: real)
    requires Contains(m, Fin(c))
    ensures Contains(PadAxis(m), Fin(c))
  {
  }

  /** The box holds the whole parallelogram `Q + a u + b v`,
      `a, b` in [0, 1], its four corners included. */
  lemma {:induction false} QuadBoxContains(q: Point3, u: Vector3, v: Vector3, a: real, b: real)
    requires 0.0 <= a <= 1.0 && 0.0 <= b <= 1.0
    ensures InBox(QuadBox(q, u, v), Add(Add(q, Scale(u, a)), Scale(v, b)))
  {
    var pt := Add(Add(q, Scale(u, a)), Scale(v, b));
    forall n | 0 <= n < 3 ensures Between(AxisOf(QuadBox(q, u, v), n), Coord(pt, n)) {
      ScaledFraction(u, a, n);
      ScaledFraction(v, b, n);
      CornersInBox(q, u, v, n);
      HullAxis(AxisOf(QuadBox(q, u, v), n), q, u, v, Scale(u, a), Scale(v, b), n);
    }
  }

  // ----- hit -----

  /** A ray not parallel to the plane has a non-zero `normal . direction`. */
  lemma NotParallelNonZero(normal: Vector3, dir: Vector3)
    requires !Parallel(normal, dir)
    ensures Dot(normal, dir) != 0.0 && Dot(dir, normal) != 0.0
  {
    DotSymmetric(normal, dir);
  }

  /** What `hit` returns for the quad with corner `q`, sides `u`, `v`, the
      derived `normal`, `d`, `w` and material `mat`: no hit for a ray
      parallel to the plane, for a plane crossing outside the closed
      `interval`, and for a crossing outside the parallelogram; otherwise
      the record `_is_interior` starts (`u = alpha`, `v = beta`) with `t`,
      the point, the material and the face normal filled in. */
  function QuadHit<M>(q: Point3, u: Vector3, v: Vector3, w: Vector3, normal: Vector3, d: real,
                      mat: M, ray: Ray, interval: Interval): Option<HitInfo<M>>
  {
    if Parallel(normal, ray.dir) then None
    else
      NotParallelNonZero(normal, ray.dir);
      var t := PlaneParameter(normal, d, ray);
      if !Contains(interval, Fin(t)) then None
      else
        var p := At(ray, t);
        var ab := PlanarCoordinates(u, v, w, Sub(p, q));
        if !Interior(ab.0, ab.1) then None
        else
          var started := HitInfo(Zero, Zero, 0.0, true, None, ab.0, ab.1);
          Some(SetFaceNormalAsWritten(started.(t := t, p := p, mat := Some(mat)), ray.dir, normal))
  }

  /** A hit lies on the ray at a parameter inside the closed interval, on
      the plane `normal . p = d` and inside the parallelogram, `u` and `v`
      being its planar coordinates; the normal faces against the ray
      (strictly: the ray is not parallel) and keeps the length of `normal`;
      `front_face` stays True and the material is the quad's. */
  lemma {:induction false} QuadHitSound<M>(q: Point3, u: Vector3, v: Vector3, w: Vector3, normal: Vector3, d: real,
                                           mat: M, ray: Ray, interval: Interval)
    requires QuadHit(q, u, v, w, normal, d, mat, ray, interval).Some?
    ensures var h := QuadHit(q, u, v, w, normal, d, mat, ray, interval).value;
      && Contains(interval, Fin(h.t))
      && h.p == At(ray, h.t)
      && Dot(normal, h.p) == d
      && 0.0 <= h.u <= 1.0 && 0.0 <= h.v <= 1.0
      && (h.u, h.v) == PlanarCoordinates(u, v, w, Sub(h.p, q))
      && h.normal == FaceNormal(ray.dir, normal)
      && Dot(ray.dir, h.normal) < 0.0
      && LengthSquared(h.normal) == LengthSquared(normal)
      && h.frontFace && h.mat == Some(mat)
  {
    NotParallelNonZero(normal, ray.dir);
    PlaneParameterOnPlane(normal, d, ray);
    FaceNormalFacesRay(ray.dir, normal);
    var h := QuadHit(q, u, v, w, normal, d, mat, ray, interval).value;
    InteriorBounds(h.u, h.v);
  }

  /** A multiple of `u x v` is orthogonal to `u` and to `v`. */
  lemma {:induction false} NormalOrthogonal(normal: Vector3, u: Vector3, v: Vector3, k: real)
    requires normal == Scale(Cross(u, v), k)
    ensures Dot(normal, u) == 0.0 && Dot(normal, v) == 0.0
  {
    var n := Cross(u, v);
    CrossOrthogonal(u, v);
    DotSymmetric(n, u);
    DotSymmetric(n, v);
    DotScaleLeft(n, k, u);
    DotScaleLeft(n, k, v);
  }

  lemma DotScaleRight(n: Vector3, u: Vector3, a: real, k: real)
    requires k == Dot(n, u)
    ensures Dot(n, Scale(u, a)) == k * a
  {
    assert Dot(n, Scale(u, a)) == n.x * (u.x * a) + n.y * (u.y * a) + n.z * (u.z * a);
    assert n.x * (u.x * a) == (n.x * u.x) * a;
    assert n.y * (u.y * a) == (n.y * u.y) * a;
    assert n.z * (u.z * a) == (n.z * u.z) * a;
  }

  lemma DotAddRight(n: Vector3, x: Vector3, y: Vector3)
    ensures Dot(n, Add(x, y)) == Dot(n, x) + Dot(n, y)
  {
  }

  /** Every point `Q + a u + b v` lies on the plane `normal . p = d`. */
  lemma {:induction false} CombinationOnPlane(normal: Vector3, q: Point3, u: Vector3, v: Vector3, a: real, b: real)
    requires Dot(normal, u) == 0.0 && Dot(normal, v) == 0.0
    ensures Dot(normal, Add(Add(q, Scale(u, a)), Scale(v, b))) == Dot(normal, q)
  {
    DotAddRight(normal, Add(q, Scale(u, a)), Scale(v, b));
    DotAddRight(normal, q, Scale(u, a));
    DotScaleRight(normal, u, a, 0.0);
    DotScaleRight(normal, v, b, 0.0);
  }

  /** Conversely, a ray reaching a point `Q + a u + b v` of the
      parallelogram (`a, b` in [0, 1]) at a parameter `t` inside the closed
      interval hits the quad there, unless it runs parallel to the plane:
      the record has that `t` and the planar coordinates `(a, b)`. */
  lemma {:induction false} QuadHitComplete<M>(m: Oracle, q: Point3, u: Vector3, v: Vector3, mat: M,
                                              ray: Ray, interval: Interval, t: real, a: real, b: real)
    requires Lawful(m) && Cross(u, v) != Zero
    requires !Parallel(UnitVector(m, Cross(u, v)), ray.dir)
    requires 0.0 <= a <= 1.0 && 0.0 <= b <= 1.0
    requires At(ray, t) == Add(Add(q, Scale(u, a)), Scale(v, b))
    requires Contains(interval, Fin(t))
    ensures var normal := UnitVector(m, Cross(u, v));
      var h := QuadHit(q, u, v, PlaneW(u, v), normal, Dot(normal, q), mat, ray, interval);
      h.Some? && h.value.t == t && h.value.p == At(ray, t) && h.value.u == a && h.value.v == b
  {
    var n := Cross(u, v);
    var normal := UnitVector(m, n);
    var k :| k > 0.0 && normal == Scale(n, k);
    NormalOrthogonal(normal, u, v, k);
    CombinationOnPlane(normal, q, u, v, a, b);
    NotParallelNonZero(normal, ray.dir);
    PlaneParameterUnique(normal, Dot(normal, q), ray, t);
    assert Sub(At(ray, t), q) == Add(Scale(u, a), Scale(v, b));
    PlanarCoordinatesOfCombination(u, v, a, b);
  }

  /** `Quad`: corner `q`, sides `u` and `v`, material `mat`, and what the
      constructor derives from them: the unit `normal` of the plane, its
      offset `d`, the vector `w` that yields planar coordinates, and the
      bounding box. */
  class Quad<M> {
    const q: Point3
    const u: Vector3
    const v: Vector3
    const mat: M
    const normal: Vector3
    const d: real
    const w: Vector3
    const bbox: Aabb

    /** `n = u x v`, `normal = n / |n|`, `d = normal . q`,
        `w = n / (n . n)`; then `_set_bounding_box`. Sides spanning no
        area make both divisions fail in Python. */
    constructor (m: Oracle, q: Point3, u: Vector3, v: Vector3, mat: M)
      requires Lawful(m) && Cross(u, v) != Zero
      ensures this.q == q && this.u == u && this.v == v && this.mat == mat
      ensures normal == UnitVector(m, Cross(u, v))
      ensures d == Dot(normal, q)
      ensures w == PlaneW(u, v)
      ensures bbox == QuadBox(q, u, v)
    {
      this.q := q;
      this.u := u;
      this.v := v;
      this.mat := mat;
      var n := Cross(u, v);
      var nrm := UnitVector(m, n);
      normal := nrm;
      d := Dot(nrm, q);
      DotSelf(n);
      w := Div(n, Dot(n, n));
      bbox := QuadBox(q, u, v);
    }

    function BoundingBox(): Aabb
    {
      bbox
    }

    /** `_is_interior(a, b)`: a fresh record holding `u = a`, `v = b` when
        both lie in the closed [0, 1], and no record otherwise. */
    static method IsInterior(a: real, b: real) returns (res: bool, rec: HitRecord?<M>)
      ensures res == Interior(a, b)
      ensures res ==> rec != null && fresh(rec) && rec.Info() == HitInfo(Zero, Zero, 0.0, true, None, a, b)
      ensures !res ==> rec == null
    {
      var unit := Interval(Fin(0.0), Fin(1.0));
      if !Contains(unit, Fin(a)) || !Contains(unit, Fin(b)) {
        return false, null;
      }
      rec := new HitRecord();
      rec.u := a;
      rec.v := b;
      res := true;
    }

    /** `hit(ray, interval)`. */
    method Hit(ray: Ray, interval: Interval) returns (r: Option<HitInfo<M>>)
      ensures r == QuadHit(q, u, v, w, normal, d, mat, ray, interval)
    {
      var denom := Dot(normal, ray.dir);
      if Abs(denom) < ParallelEps {
        return None;
      }
      var t := (d - Dot(normal, ray.orig)) / denom;
      if !Contains(interval, Fin(t)) {
        return None;
      }
      var intersection := At(ray, t);
      var planar := Sub(intersection, q);
      var alpha := Dot(w, Cross(planar, v));
      var beta := Dot(w, Cross(u, planar));
      var inside, rec := IsInterior(alpha, beta);
      if !inside {
        return None;
      }
      rec.t := t;
      rec.p := intersection;
      rec.mat := Some(mat);
      rec.SetFaceNormal(ray, normal);
      r := Some(rec.Info());
    }
  }
}
