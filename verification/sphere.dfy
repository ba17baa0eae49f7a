/** Spheres: the ray-sphere quadratic, the choice of root, the hit record
    and the texture coordinates, for the static and moving spheres of the
    third renderer and the simpler spheres of the first two. */
module Spheres {
  import opened Wrappers
  import opened ExtReals
  import opened MathLib
  import opened Vec
  import opened Rays
  import opened Intervals
  import opened Aabbs
  import opened Hittables

  // ----- the quadratic -----

  /** `a t^2 + 2 half_b t + c`, whose zeros are the parameters at which the
      ray meets the sphere. */
  function Poly(a: real, h: real, c: real, x: real): real
  {
    a * Sq(x) + h * (2.0 * x) + c
  }

  /** The ray reaches the sphere's surface at `t`. */
  predicate OnSphere(center: Point3, radius: real, ray: Ray, t: real)
  {
    LengthSquared(Sub(At(ray, t), center)) == Sq(radius)
  }

  lemma MulZero(p: real, q: real)
    ensures p * q == 0.0 <==> p == 0.0 || q == 0.0
  {
    if p > 0.0 && q > 0.0 { MulPos(p, q); assert Prod(p, q) == p * q; }
    else if p < 0.0 && q < 0.0 { MulNeg(p, q); assert Prod(p, q) == p * q; }
    else if p > 0.0 && q < 0.0 { MulPos(p, -q); assert Prod(p, -q) == -(p * q); }
    else if p < 0.0 && q > 0.0 { MulPos(-p, q); assert Prod(-p, q) == -(p * q); }
  }

  lemma PolyScaled(a: real, h: real, c: real, x: real)
    ensures a * Poly(a, h, c, x) == Sq(a * x + h) - (Sq(h) - a * c)
  {
  }

  lemma DivSolve(a: real, k: real, x: real)
    requires a != 0.0
    ensures a * x + k == 0.0 <==> x == -k / a
  {
  }

  lemma DiffOfSquares(u: real, s: real)
    ensures Sq(u) - Sq(s) == (u - s) * (u + s)
  {
  }

  /** With `s` the square root of the discriminant, the zeros of the
      quadratic are exactly `(-half_b - s) / a` and `(-half_b + s) / a`. */
  lemma {:induction false} QuadRoots(a: real, h: real, c: real, s: real, x: real)
    requires a != 0.0 && 0.0 <= s && Sq(s) == Sq(h) - a * c
    ensures Poly(a, h, c, x) == 0.0 <==> x == (-h - s) / a || x == (-h + s) / a
  {
    var u := a * x + h;
    PolyScaled(a, h, c, x);
    DiffOfSquares(u, s);
    MulZero(u - s, u + s);
    MulZero(a, Poly(a, h, c, x));
    DivSolve(a, h - s, x);
    DivSolve(a, h + s, x);
    assert -(h - s) / a == (-h + s) / a;
    assert -(h + s) / a == (-h - s) / a;
  }

  /** A negative discriminant leaves the quadratic without zeros. */
  lemma {:induction false} NoRoots(a: real, h: real, c: real, x: real)
    requires a != 0.0 && Sq(h) - a * c < 0.0
    ensures Poly(a, h, c, x) != 0.0
  {
    PolyScaled(a, h, c, x);
    MulZero(a, Poly(a, h, c, x));
  }

  lemma RootsOrdered(a: real, h: real, s: real)
    requires 0.0 < a && 0.0 <= s
    ensures (-h - s) / a <= (-h + s) / a
  {
    assert (-h + s) / a - (-h - s) / a == (2.0 * s) / a;
  }

  lemma SqAlong(u: real, d: real, t: real)
    ensures Sq(u + d * t) == Sq(d) * Sq(t) + (u * d) * (2.0 * t) + Sq(u)
  {
  }

  /** The squared length along a line, as a quadratic in the parameter. */
  lemma {:induction false} LengthSquaredAlong(u: Vector3, d: Vector3, t: real)
    ensures LengthSquared(Add(u, Scale(d, t))) == Poly(LengthSquared(d), Dot(u, d), LengthSquared(u), t)
  {
    AlongByAxis(u, d, t);
    SqAlong(u.x, d.x, t);
    SqAlong(u.y, d.y, t);
    SqAlong(u.z, d.z, t);
    PolyByAxis(u, d, t);
  }

  lemma AlongByAxis(u: Vector3, d: Vector3, t: real)
    ensures LengthSquared(Add(u, Scale(d, t))) == Sq(u.x + d.x * t) + Sq(u.y + d.y * t) + Sq(u.z + d.z * t)
  {
  }

  lemma {:induction false} PolyByAxis(u: Vector3, d: Vector3, t: real)
    ensures Poly(LengthSquared(d), Dot(u, d), LengthSquared(u), t)
      == (Sq(d.x) * Sq(t) + (u.x * d.x) * (2.0 * t) + Sq(u.x))
       + (Sq(d.y) * Sq(t) + (u.y * d.y) * (2.0 * t) + Sq(u.y))
       + (Sq(d.z) * Sq(t) + (u.z * d.z) * (2.0 * t) + Sq(u.z))
  {
    Distrib3(Sq(d.x), Sq(d.y), Sq(d.z), Sq(t), LengthSquared(d));
    Distrib3(u.x * d.x, u.y * d.y, u.z * d.z, 2.0 * t, Dot(u, d));
  }

  lemma Distrib3(p: real, q: real, r: real, k: real, s: real)
    requires s == p + q + r
    ensures s * k == p * k + q * k + r * k
  {
  }

  /** The ray meets the sphere at `t` exactly when `t` is a zero of the
      quadratic that `hit` sets up (`oc = origin - center`,
      `a = |dir|^2`, `half_b = oc . dir`, `c = |oc|^2 - radius^2`). */
  lemma {:induction false} OnSphereIffRoot(center: Point3, radius: real, ray: Ray, t: real)
    ensures OnSphere(center, radius, ray, t) <==> Poly(LengthSquared(ray.dir), Dot(Sub(ray.orig, center), ray.dir), LengthSquared(Sub(ray.orig, center)) - Sq(radius), t) == 0.0
  {
    var a, h, c := LengthSquared(ray.dir), Dot(Sub(ray.orig, center), ray.dir), LengthSquared(Sub(ray.orig, center));
    DistanceQuadratic(center, ray, t);
    RootShift(a, h, c, Sq(radius), t, LengthSquared(Sub(At(ray, t), center)));
  }

  /** A value equal to the quadratic equals `k` exactly where the
      quadratic with `c - k` vanishes. */
  lemma RootShift(a: real, h: real, c: real, k: real, x: real, d: real)
    requires d == Poly(a, h, c, x)
    ensures d == k <==> Poly(a, h, c - k, x) == 0.0
  {
    PolyShift(a, h, c, k, x);
  }

  /** The squared distance from the centre at parameter `t`. */
  lemma {:induction false} DistanceQuadratic(center: Point3, ray: Ray, t: real)
    ensures LengthSquared(Sub(At(ray, t), center)) == Poly(LengthSquared(ray.dir), Dot(Sub(ray.orig, center), ray.dir), LengthSquared(Sub(ray.orig, center)), t)
  {
    OffsetAlong(center, ray, t);
    LengthSquaredAlong(Sub(ray.orig, center), ray.dir, t);
  }

  lemma OffsetAlong(center: Point3, ray: Ray, t: real)
    ensures Sub(At(ray, t), center) == Add(Sub(ray.orig, center), Scale(ray.dir, t))
  {
  }

  lemma PolyShift(a: real, h: real, c: real, k: real, x: real)
    ensures Poly(a, h, c - k, x) == Poly(a, h, c, x) - k
  {
  }

  // ----- choosing the root -----

  /** The root choice of `hit`: nothing for a negative discriminant;
      otherwise the smaller root if the interval strictly surrounds it,
      else the larger one if it does, else nothing. Dividing by `a = 0`
      raises ZeroDivisionError. */
  function ChooseRoot(m: Oracle, a: real, h: real, c: real, interval: Interval): (r: Result<Option<real>>)
    requires Lawful(m)
    ensures Sq(h) - a * c < 0.0 ==> r == Ok(None)
    ensures r.Raise? <==> a == 0.0 && Sq(h) - a * c >= 0.0
    ensures r.Raise? ==> r.error == ZeroDivisionError
    ensures r.Ok? && r.value.Some? ==> Surrounds(interval, Fin(r.value.value)) && Poly(a, h, c, r.value.value) == 0.0
  {
    var disc := Sq(h) - a * c;
    if disc < 0.0 then Ok(None)
    else if a == 0.0 then Raise(ZeroDivisionError)
    else
      var s := m.sqrt(disc);
      SqrtOf(m, disc);
      QuadRoots(a, h, c, s, (-h - s) / a);
      QuadRoots(a, h, c, s, (-h + s) / a);
      var root := (-h - s) / a;
      if Surrounds(interval, Fin(root)) then Ok(Some(root))
      else
        var root2 := (-h + s) / a;
        if Surrounds(interval, Fin(root2)) then Ok(Some(root2))
        else Ok(None)
  }

  /** For `a > 0` the chosen root is the nearest zero strictly inside the
      interval, and nothing is chosen only when no zero lies strictly
      inside it. */
  lemma {:induction false} ChooseRootNearest(m: Oracle, a: real, h: real, c: real, interval: Interval, x: real)
    requires Lawful(m) && 0.0 < a
    requires Poly(a, h, c, x) == 0.0 && Surrounds(interval, Fin(x))
    ensures ChooseRoot(m, a, h, c, interval).Ok?
    ensures ChooseRoot(m, a, h, c, interval).value.Some?
    ensures ChooseRoot(m, a, h, c, interval).value.value <= x
  {
    var disc := Sq(h) - a * c;
    if disc < 0.0 {
      NoRoots(a, h, c, x);
    } else {
      var s := m.sqrt(disc);
      SqrtOf(m, disc);
      QuadRoots(a, h, c, s, x);
      RootsOrdered(a, h, s);
    }
  }

  // ----- texture coordinates -----

  /** `get_sphere_uv(p, rec)`: `theta = acos(-p.y)`, `phi = atan2(-p.z, p.x) +
      PI`, `u = phi / (2 PI)`, `v = theta / PI`. `acos` raises ValueError
      outside [-1, 1]; otherwise both coordinates land in [0, 1]. */
  function SphereUV(m: Oracle, p: Point3): (r: Result<(real, real)>)
    requires Lawful(m)
    ensures r.Raise? <==> !(-1.0 <= -p.y <= 1.0)
    ensures r.Raise? ==> r.error == ValueError
    ensures r.Ok? ==> 0.0 <= r.value.0 <= 1.0 && 0.0 <= r.value.1 <= 1.0
  {
    if !(-1.0 <= -p.y <= 1.0) then Raise(ValueError)
    else
      var theta := m.acos(-p.y);
      var phi := m.atan2(-p.z, p.x) + m.pi;
      UnitFraction(phi, 2.0 * m.pi);
      UnitFraction(theta, m.pi);
      Ok((phi / (2.0 * m.pi), theta / m.pi))
  }

  lemma UnitFraction(x: real, d: real)
    requires 0.0 < d && 0.0 <= x <= d
    ensures 0.0 <= x / d <= 1.0
  {
  }

  // ----- the hit record -----

  /** The record `hit` fills for an accepted root: a fresh `HitRecord`
      gets `t`, `p = ray.at(t)`, the face normal from `(p - center) /
      radius`, then (third renderer only) `u, v` from the outward normal,
      then the material. A zero radius raises ZeroDivisionError. */
  function SphereRecord<M>(m: Oracle, ray: Ray, center: Point3, radius: real, root: real,
                           mat: Option<M>, uv: bool): Result<HitInfo<M>>
    requires Lawful(m)
  {
    if radius == 0.0 then Raise(ZeroDivisionError)
    else
      var p := At(ray, root);
      var outward := Div(Sub(p, center), radius);
      var rec := SetFaceNormalAsWritten(HitInfo(p, Zero, root, true, None, 0.0, 0.0), ray.dir, outward);
      if !uv then Ok(rec.(mat := mat))
      else
        match SphereUV(m, outward)
        case Raise(e) => Raise(e)
        case Ok(coords) => Ok(rec.(u := coords.0, v := coords.1, mat := mat))
  }

  /** The coefficients `(a, half_b, c)` that `hit` computes. */
  function Coefficients(center: Point3, radius: real, ray: Ray): (real, real, real)
  {
    var oc := Sub(ray.orig, center);
    (LengthSquared(ray.dir), Dot(oc, ray.dir), LengthSquared(oc) - Sq(radius))
  }

  /** `hit` of a sphere, as a value: `Ok(None)` for `(False, None)`,
      `Ok(Some(rec))` for `(True, rec)`, `Raise` for an exception. */
  function SphereHit<M>(m: Oracle, center: Point3, radius: real, mat: Option<M>, uv: bool,
                        ray: Ray, interval: Interval): Result<Option<HitInfo<M>>>
    requires Lawful(m)
  {
    var q := Coefficients(center, radius, ray);
    RecordFor(m, ray, center, radius, mat, uv, ChooseRoot(m, q.0, q.1, q.2, interval))
  }

  /** The second half of `hit`: no root gives a miss, a root gives its
      record. */
  function RecordFor<M>(m: Oracle, ray: Ray, center: Point3, radius: real, mat: Option<M>, uv: bool,
                        choice: Result<Option<real>>): Result<Option<HitInfo<M>>>
    requires Lawful(m)
  {
    match choice
    case Raise(e) => Raise(e)
    case Ok(None) => Ok(None)
    case Ok(Some(root)) =>
      match SphereRecord(m, ray, center, radius, root, mat, uv)
      case Raise(e) => Raise(e)
      case Ok(rec) => Ok(Some(rec))
  }

  /** What a record filled for a point of the surface holds: the point on
      the ray at `t`, on the sphere, a unit normal facing against the ray
      (the outward normal or its negation), `front_face` still True, the
      sphere's material, and (u, v) in the unit square when computed. */
  ghost predicate SurfaceRecord<M>(rec: HitInfo<M>, ray: Ray, center: Point3, radius: real, mat: Option<M>, uv: bool)
  {
    && radius != 0.0
    && rec.p == At(ray, rec.t)
    && OnSphere(center, radius, ray, rec.t)
    && rec.normal == FaceNormal(ray.dir, Div(Sub(rec.p, center), radius))
    && Dot(ray.dir, rec.normal) <= 0.0
    && LengthSquared(rec.normal) == 1.0
    && rec.frontFace
    && rec.mat == mat
    && (uv ==> 0.0 <= rec.u <= 1.0 && 0.0 <= rec.v <= 1.0)
    && (!uv ==> rec.u == 0.0 && rec.v == 0.0)
  }

  /** On the surface the outward normal `(p - center) / radius` has unit
      length, so `acos(-y)` is defined and the record is always filled. */
  lemma {:induction false} SphereRecordOnSurface<M>(m: Oracle, ray: Ray, center: Point3, radius: real,
                                                    root: real, mat: Option<M>, uv: bool)
    requires Lawful(m) && radius != 0.0 && OnSphere(center, radius, ray, root)
    ensures SphereRecord(m, ray, center, radius, root, mat, uv).Ok?
    ensures SphereRecord(m, ray, center, radius, root, mat, uv).value.t == root
    ensures SurfaceRecord(SphereRecord(m, ray, center, radius, root, mat, uv).value, ray, center, radius, mat, uv)
  {
    var d := Sub(At(ray, root), center);
    var outward := Div(d, radius);
    assert outward == Scale(d, 1.0 / radius);
    UnitLength(d, radius);
    assert LengthSquared(outward) == 1.0;
    FaceNormalFacesRay(ray.dir, outward);
    SqBound(outward.y, 1.0);
  }

  /** Soundness of `hit`: a reported hit lies strictly inside the query
      interval and on the sphere, with a well-formed record. */
  lemma {:induction false} SphereHitSound<M>(m: Oracle, center: Point3, radius: real, mat: Option<M>, uv: bool,
                                             ray: Ray, interval: Interval)
    requires Lawful(m)
    requires SphereHit(m, center, radius, mat, uv, ray, interval).Ok?
    requires SphereHit(m, center, radius, mat, uv, ray, interval).value.Some?
    ensures Surrounds(interval, Fin(SphereHit(m, center, radius, mat, uv, ray, interval).value.value.t))
    ensures SurfaceRecord(SphereHit(m, center, radius, mat, uv, ray, interval).value.value, ray, center, radius, mat, uv)
  {
    var q := Coefficients(center, radius, ray);
    var choice := ChooseRoot(m, q.0, q.1, q.2, interval);
    assert SphereHit(m, center, radius, mat, uv, ray, interval) == RecordFor(m, ray, center, radius, mat, uv, choice);
    ChosenRootOnSphere(m, center, radius, ray, interval);
    ZeroRadiusRaises(m, ray, center, radius, mat, uv, choice);
    RecordForSound(m, ray, center, radius, mat, uv, choice);
  }

  /** A sphere of zero radius turns every chosen root into a
      ZeroDivisionError. */
  lemma ZeroRadiusRaises<M>(m: Oracle, ray: Ray, center: Point3, radius: real, mat: Option<M>, uv: bool,
                            choice: Result<Option<real>>)
    requires Lawful(m)
    ensures radius == 0.0 && choice.Ok? && choice.value.Some? ==>
      RecordFor(m, ray, center, radius, mat, uv, choice) == Raise(ZeroDivisionError)
  {
  }

  /** The record of a root on the surface of a sphere of non-zero radius
      is a surface record at that root. */
  lemma {:induction false} RecordForSound<M>(m: Oracle, ray: Ray, center: Point3, radius: real, mat: Option<M>, uv: bool,
                                             choice: Result<Option<real>>)
    requires Lawful(m) && radius != 0.0
    requires choice.Ok? && choice.value.Some? && OnSphere(center, radius, ray, choice.value.value)
    ensures RecordFor(m, ray, center, radius, mat, uv, choice).Ok?
    ensures RecordFor(m, ray, center, radius, mat, uv, choice).value.Some?
    ensures RecordFor(m, ray, center, radius, mat, uv, choice).value.value.t == choice.value.value
    ensures SurfaceRecord(RecordFor(m, ray, center, radius, mat, uv, choice).value.value, ray, center, radius, mat, uv)
  {
    SphereRecordOnSurface(m, ray, center, radius, choice.value.value, mat, uv);
  }

  /** The record half of `hit` given the root choice: no root is a miss,
      a root on the surface of a sphere of non-zero radius always gives a
      record at that root, and the only exception it adds is the
      ZeroDivisionError of a zero radius. */
  lemma {:induction false} RecordForOutcomes<M>(m: Oracle, ray: Ray, center: Point3, radius: real, mat: Option<M>, uv: bool,
                                                choice: Result<Option<real>>)
    requires Lawful(m)
    requires choice.Ok? && choice.value.Some? && radius != 0.0 ==>
      SphereRecord(m, ray, center, radius, choice.value.value, mat, uv).Ok?
    ensures choice == Ok(None) ==> RecordFor(m, ray, center, radius, mat, uv, choice) == Ok(None)
    ensures choice.Raise? ==> RecordFor(m, ray, center, radius, mat, uv, choice) == Raise(choice.error)
    ensures choice.Ok? && choice.value.Some? && radius == 0.0 ==>
      RecordFor(m, ray, center, radius, mat, uv, choice) == Raise(ZeroDivisionError)
    ensures choice.Ok? && choice.value.Some? && radius != 0.0 ==>
      && RecordFor(m, ray, center, radius, mat, uv, choice).Ok?
      && RecordFor(m, ray, center, radius, mat, uv, choice).value.Some?
      && RecordFor(m, ray, center, radius, mat, uv, choice).value.value.t == choice.value.value
  {
  }

  /** A root chosen by `ChooseRoot` for the sphere's coefficients is a
      point of the surface. */
  lemma {:induction false} ChosenRootOnSphere(m: Oracle, center: Point3, radius: real, ray: Ray, interval: Interval)
    requires Lawful(m)
    ensures var q := Coefficients(center, radius, ray);
      var choice := ChooseRoot(m, q.0, q.1, q.2, interval);
      choice.Ok? && choice.value.Some? ==> OnSphere(center, radius, ray, choice.value.value)
  {
    var q := Coefficients(center, radius, ray);
    var choice := ChooseRoot(m, q.0, q.1, q.2, interval);
    if choice.Ok? && choice.value.Some? {
      OnSphereIffRoot(center, radius, ray, choice.value.value);
    }
  }

  /** Completeness of `hit`: a point of the surface strictly inside the
      interval is never missed, and for a moving ray and a non-zero radius
      the reported hit is at that point or nearer. */
  lemma {:induction false} SphereHitNearest<M>(m: Oracle, center: Point3, radius: real, mat: Option<M>, uv: bool,
                                               ray: Ray, interval: Interval, x: real)
    requires Lawful(m)
    requires OnSphere(center, radius, ray, x) && Surrounds(interval, Fin(x))
    ensures SphereHit(m, center, radius, mat, uv, ray, interval) != Ok(None)
    ensures ray.dir != Zero && radius != 0.0 ==>
      && SphereHit(m, center, radius, mat, uv, ray, interval).Ok?
      && SphereHit(m, center, radius, mat, uv, ray, interval).value.Some?
      && SphereHit(m, center, radius, mat, uv, ray, interval).value.value.t <= x
  {
    if ray.dir == Zero {
      SphereHitOutcomes(m, center, radius, mat, uv, ray, interval);
    } else {
      var q := Coefficients(center, radius, ray);
      var choice := ChooseRoot(m, q.0, q.1, q.2, interval);
      NearestChoice(m, center, radius, ray, interval, x);
      ChosenRootFilled(m, center, radius, mat, uv, ray, interval);
      RecordForOutcomes(m, ray, center, radius, mat, uv, choice);
    }
  }

  /** For a moving ray, a surface point strictly inside the interval makes
      `ChooseRoot` pick a root no later than that point. */
  lemma {:induction false} NearestChoice(m: Oracle, center: Point3, radius: real, ray: Ray, interval: Interval, x: real)
    requires Lawful(m) && ray.dir != Zero
    requires OnSphere(center, radius, ray, x) && Surrounds(interval, Fin(x))
    ensures var q := Coefficients(center, radius, ray);
      var choice := ChooseRoot(m, q.0, q.1, q.2, interval);
      choice.Ok? && choice.value.Some? && choice.value.value <= x
  {
    var q := Coefficients(center, radius, ray);
    assert q.0 > 0.0;
    OnSphereIffRoot(center, radius, ray, x);
    ChooseRootNearest(m, q.0, q.1, q.2, interval, x);
  }

  /** `hit` is the record of the chosen root: a chosen root on a sphere of
      non-zero radius is always filled in. */
  lemma {:induction false} ChosenRootFilled<M>(m: Oracle, center: Point3, radius: real, mat: Option<M>, uv: bool,
                                               ray: Ray, interval: Interval)
    requires Lawful(m)
    ensures var q := Coefficients(center, radius, ray);
      var choice := ChooseRoot(m, q.0, q.1, q.2, interval);
      && SphereHit(m, center, radius, mat, uv, ray, interval) == RecordFor(m, ray, center, radius, mat, uv, choice)
      && (choice.Ok? && choice.value.Some? && radius != 0.0 ==>
            SphereRecord(m, ray, center, radius, choice.value.value, mat, uv).Ok?)
  {
    var q := Coefficients(center, radius, ray);
    var choice := ChooseRoot(m, q.0, q.1, q.2, interval);
    ChosenRootOnSphere(m, center, radius, ray, interval);
    if choice.Ok? && choice.value.Some? && radius != 0.0 {
      SphereRecordOnSurface(m, ray, center, radius, choice.value.value, mat, uv);
    }
  }

  /** The outcomes of `hit` that are not hits: a negative discriminant
      misses; the only exception is ZeroDivisionError, from a zero
      direction (which always raises) or a zero radius. `acos` never
      raises, because the outward normal has unit length. */
  lemma {:induction false} SphereHitOutcomes<M>(m: Oracle, center: Point3, radius: real, mat: Option<M>, uv: bool,
                                                ray: Ray, interval: Interval)
    requires Lawful(m)
    ensures var q := Coefficients(center, radius, ray);
      Sq(q.1) - q.0 * q.2 < 0.0 ==> SphereHit(m, center, radius, mat, uv, ray, interval) == Ok(None)
    ensures SphereHit(m, center, radius, mat, uv, ray, interval).Raise? ==>
      && SphereHit(m, center, radius, mat, uv, ray, interval).error == ZeroDivisionError
      && (ray.dir == Zero || radius == 0.0)
    ensures ray.dir == Zero ==> SphereHit(m, center, radius, mat, uv, ray, interval) == Raise(ZeroDivisionError)
  {
    var q := Coefficients(center, radius, ray);
    var choice := ChooseRoot(m, q.0, q.1, q.2, interval);
    ChosenRootFilled(m, center, radius, mat, uv, ray, interval);
    RecordForOutcomes(m, ray, center, radius, mat, uv, choice);
    if ray.dir == Zero {
      ZeroDirection(center, radius, ray);
      ZeroDirectionRaises(m, q.2, interval);
    }
  }

  /** With a zero direction both `a` and `half_b` vanish. */
  lemma {:induction false} ZeroDirection(center: Point3, radius: real, ray: Ray)
    requires ray.dir == Zero
    ensures Coefficients(center, radius, ray).0 == 0.0 && Coefficients(center, radius, ray).1 == 0.0
  {
    DotZeroRight(Sub(ray.orig, center));
    assert LengthSquared(Zero) == 0.0;
  }

  /** `a = half_b = 0` makes the discriminant zero and the root `0 / 0`. */
  lemma ZeroDirectionRaises(m: Oracle, c: real, interval: Interval)
    requires Lawful(m)
    ensures ChooseRoot(m, 0.0, 0.0, c, interval) == Raise(ZeroDivisionError)
  {
    assert Sq(0.0) - 0.0 * c == 0.0;
  }

  // ----- the bounding box -----

  /** `AABB(a=c - (r,r,r), b=c + (r,r,r))`: the box around one position of
      the sphere. */
  function BallBox(c: Point3, radius: real): Aabb
  {
    var rvec := Vector3(radius, radius, radius);
    Construct(None, None, None, Some(Sub(c, rvec)), Some(Add(c, rvec)), None, None).value
  }

  /** The constructor's `bbox`: the box around `center1`, or for a moving
      sphere `AABB(box0=aabb1, box1=aabb2)` over the boxes at both
      centres. */
  function SphereBox(center1: Point3, radius: real, center2: Option<Point3>): Aabb
  {
    if center2.None? then BallBox(center1, radius)
    else Construct(None, None, None, None, None, Some(BallBox(center1, radius)), Some(BallBox(center2.value, radius))).value
  }

  /** Each coordinate of a point within `|radius|` of `c` lies between
      `c - radius` and `c + radius`. */
  lemma {:induction false} WithinRadius(c: Point3, radius: real, p: Point3, n: nat)
    requires n < 3 && LengthSquared(Sub(p, c)) <= Sq(radius)
    ensures var lo, hi := Coord(c, n) - radius, Coord(c, n) + radius;
      (lo <= Coord(p, n) <= hi) || (hi <= Coord(p, n) <= lo)
  {
    var d := Sub(p, c);
    assert Sq(Coord(d, n)) <= LengthSquared(d);
    SqBound(Coord(d, n), radius);
  }

  /** The box around one position contains the ball of that radius. */
  lemma {:induction false} BallInBox(c: Point3, radius: real, p: Point3)
    requires LengthSquared(Sub(p, c)) <= Sq(radius)
    ensures InBox(BallBox(c, radius), p)
  {
    var rvec := Vector3(radius, radius, radius);
    forall n | 0 <= n < 3
      ensures (Coord(Sub(c, rvec), n) <= Coord(p, n) <= Coord(Add(c, rvec), n))
           || (Coord(Add(c, rvec), n) <= Coord(p, n) <= Coord(Sub(c, rvec), n))
    {
      WithinRadius(c, radius, p, n);
    }
    PointsBoxContains(Sub(c, rvec), Add(c, rvec), p);
  }

  /** The sphere lies in its box: every point within the radius of
      `center1`, or of `center2` for a moving sphere, is inside `bbox`. */
  lemma {:induction false} SphereBoxContains(center1: Point3, radius: real, center2: Option<Point3>, p: Point3)
    requires LengthSquared(Sub(p, center1)) <= Sq(radius)
          || (center2.Some? && LengthSquared(Sub(p, center2.value)) <= Sq(radius))
    ensures InBox(SphereBox(center1, radius, center2), p)
  {
    var rvec := Vector3(radius, radius, radius);
    if center2.None? {
      BallInBox(center1, radius, p);
    } else {
      var c2 := center2.value;
      PointsBoxContainsPoints(Sub(center1, rvec), Add(center1, rvec));
      PointsBoxContainsPoints(Sub(c2, rvec), Add(c2, rvec));
      if LengthSquared(Sub(p, center1)) <= Sq(radius) {
        BallInBox(center1, radius, p);
      } else {
        BallInBox(c2, radius, p);
      }
      BoxesBoxContainsBoxes(BallBox(center1, radius), BallBox(c2, radius), p);
    }
  }

  // ----- the hit, step by step -----

  /** `get_sphere_uv(p, rec)`: writes `rec.u` and `rec.v`, or raises before
      writing anything when `acos` is out of its domain. */
  method GetSphereUV<M>(m: Oracle, p: Point3, rec: HitRecord<M>) returns (r: Result<()>)
    requires Lawful(m)
    modifies rec
    ensures r.Raise? <==> SphereUV(m, p).Raise?
    ensures r.Raise? ==> r.error == ValueError && rec.Info() == old(rec.Info())
    ensures r.Ok? ==> rec.Info() == old(rec.Info()).(u := SphereUV(m, p).value.0, v := SphereUV(m, p).value.1)
  {
    if !(-1.0 <= -p.y <= 1.0) {
      return Raise(ValueError);
    }
    var theta := m.acos(-p.y);
    var phi := m.atan2(-p.z, p.x) + m.pi;
    rec.u := phi / (2.0 * m.pi);
    rec.v := theta / m.pi;
    return Ok(());
  }

  /** The tail of `hit` for an accepted root: a fresh `HitRecord` filled
      field by field. The result is the record `SphereRecord` describes. */
  method FillRecord<M>(m: Oracle, ray: Ray, center: Point3, radius: real, root: real,
                       mat: Option<M>, uv: bool) returns (r: Result<HitInfo<M>>)
    requires Lawful(m)
    ensures r == SphereRecord(m, ray, center, radius, root, mat, uv)
  {
    var rec := new HitRecord<M>();
    rec.t := root;
    rec.p := At(ray, rec.t);
    if radius == 0.0 {
      return Raise(ZeroDivisionError);
    }
    var outward := Div(Sub(rec.p, center), radius);
    rec.SetFaceNormal(ray, outward);
    ghost var filled := SetFaceNormalAsWritten(HitInfo(At(ray, root), Zero, root, true, None, 0.0, 0.0), ray.dir, outward);
    assert rec.Info() == filled;
    if uv {
      var done := GetSphereUV(m, outward, rec);
      if done.Raise? {
        return Raise(done.error);
      }
    }
    rec.mat := mat;
    return Ok(rec.Info());
  }

  /** `Sphere.hit` of the first two renderers (the first attaches no
      material, `mat = None`): the quadratic, the root choice, the record. */
  method HitStatic<M>(m: Oracle, center: Point3, radius: real, mat: Option<M>, ray: Ray, interval: Interval)
    returns (r: Result<Option<HitInfo<M>>>)
    requires Lawful(m)
    ensures r == SphereHit(m, center, radius, mat, false, ray, interval)
  {
    r := HitAt(m, center, radius, mat, false, ray, interval);
  }

  /** The body of `hit` once the centre is known: the coefficients, the
      root choice, the record. */
  method HitAt<M>(m: Oracle, center: Point3, radius: real, mat: Option<M>, uv: bool, ray: Ray, interval: Interval)
    returns (r: Result<Option<HitInfo<M>>>)
    requires Lawful(m)
    ensures var q := Coefficients(center, radius, ray);
      r == RecordFor(m, ray, center, radius, mat, uv, ChooseRoot(m, q.0, q.1, q.2, interval))
  {
    var q := Coefficients(center, radius, ray);
    var choice := PickRoot(m, q.0, q.1, q.2, interval);
    match choice {
      case Raise(e) =>
        r := Raise(e);
      case Ok(None) =>
        r := Ok(None);
      case Ok(Some(root)) =>
        var rec := FillRecord(m, ray, center, radius, root, mat, uv);
        r := if rec.Raise? then Raise(rec.error) else Ok(Some(rec.value));
    }
  }

  /** The root choice of `hit`, statement by statement: a negative
      discriminant returns at once, then the smaller root is tried before
      the larger. */
  method PickRoot(m: Oracle, a: real, halfB: real, c: real, interval: Interval) returns (r: Result<Option<real>>)
    requires Lawful(m)
    ensures r == ChooseRoot(m, a, halfB, c, interval)
  {
    var discriminant := Sq(halfB) - a * c;
    if discriminant < 0.0 {
      return Ok(None);
    }
    if a == 0.0 {
      return Raise(ZeroDivisionError);
    }
    var sqrtd := m.sqrt(discriminant);
    var root := (-halfB - sqrtd) / a;
    if !Surrounds(interval, Fin(root)) {
      root := (-halfB + sqrtd) / a;
      if !Surrounds(interval, Fin(root)) {
        return Ok(None);
      }
    }
    return Ok(Some(root));
  }

  /** The centre of a moving sphere at `time`, `center1 + time *
      center_vec`; a static sphere has no `center_vec` and raises
      AttributeError. */
  function CenterAt(center1: Point3, centerVec: Option<Vector3>, time: real): (r: Result<Point3>)
    ensures r.Raise? <==> centerVec.None?
    ensures r.Raise? ==> r.error == AttributeError
  {
    match centerVec
    case None => Raise(AttributeError)
    case Some(cv) => Ok(Add(center1, RScale(time, cv)))
  }

  /** A moving sphere starts at `center1` at time 0, reaches `center2` at
      time 1, and moves in a straight line in between. */
  lemma {:induction false} CenterAtEnds(center1: Point3, center2: Point3, time: real, dt: real)
    ensures CenterAt(center1, Some(Sub(center2, center1)), 0.0) == Ok(center1)
    ensures CenterAt(center1, Some(Sub(center2, center1)), 1.0) == Ok(center2)
    ensures CenterAt(center1, Some(Sub(center2, center1)), time + dt).value
         == Add(CenterAt(center1, Some(Sub(center2, center1)), time).value, Scale(Sub(center2, center1), dt))
  {
    var cv := Sub(center2, center1);
    assert Scale(cv, time + dt) == Add(Scale(cv, time), Scale(cv, dt));
  }

  /** The third renderer's `Sphere`: static, or moving from `center1` to
      `center2` over the time range [0, 1]. `hit` stores the centre it
      used in `center`. */
  class Sphere<M> {
    const center1: Point3
    const radius: real
    const mat: M
    const isMoving: bool
    const centerVec: Option<Vector3>
    const bbox: Aabb
    var center: Option<Point3>

    /** Moving exactly when `center_vec` was set. */
    predicate Valid()
    {
      isMoving <==> centerVec.Some?
    }

    constructor (center1: Point3, radius: real, mat: M, center2: Option<Point3>)
      ensures Valid()
      ensures this.center1 == center1 && this.radius == radius && this.mat == mat
      ensures isMoving <==> center2.Some?
      ensures center2.Some? ==> centerVec == Some(Sub(center2.value, center1))
      ensures bbox == SphereBox(center1, radius, center2)
      ensures center == None
    {
      this.center1 := center1;
      this.radius := radius;
      this.mat := mat;
      if center2.Some? {
        isMoving := true;
        centerVec := Some(Sub(center2.value, center1));
      } else {
        isMoving := false;
        centerVec := None;
      }
      bbox := SphereBox(center1, radius, center2);
      center := None;
    }

    /** `sphere_center(time)`. */
    function SphereCenter(time: real): (r: Result<Point3>)
      ensures r.Raise? <==> centerVec.None?
    {
      CenterAt(center1, centerVec, time)
    }

    /** `hit`: first overwrites `center` with the centre at the ray's
        time (or `center1`), then hits the sphere there. */
    method Hit(m: Oracle, ray: Ray, interval: Interval) returns (r: Result<Option<HitInfo<M>>>)
      requires Lawful(m) && Valid()
      modifies this
      ensures center == Some(if isMoving then SphereCenter(ray.time).value else center1)
      ensures r == SphereHit(m, center.value, radius, Some(mat), true, ray, interval)
    {
      if isMoving {
        center := Some(SphereCenter(ray.time).value);
      } else {
        center := Some(center1);
      }
      r := HitAt(m, center.value, radius, Some(mat), true, ray, interval);
    }

    /** `bounding_box()`. */
    function BoundingBox(): Aabb
    {
      bbox
    }
  }
}
