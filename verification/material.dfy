/** Materials of the second book and of the earliest renderer. `scatter`
    decides whether a ray hitting the surface goes on, with which
    attenuation and in which direction. Random draws are parameters: the
    unit vector `random_unit_vector()` returned and the float
    `random.random()` returned. */
module Materials {
  import opened Wrappers
  import opened MathLib
  import opened Vec
  import opened Rays
  import opened Hittables
  import opened Textures
  import opened Utils
  import Perlins

  datatype Material =
    | Base
    | Lambertian(tex: Option<Texture>)
    | Metal(albedo: Color, fuzz: real)
    | Dielectric(refractionIndex: real)

  /** What `scatter` returns: the base class a bare `False`, the others a
      triple `(scattered?, attenuation, scattered ray)`. */
  datatype Outcome = Bare(flag: bool) | Triple(flag: bool, attenuation: Color, scattered: Ray)

  /** The draws one call of `scatter` may consume. */
  datatype Draw = Draw(unit: Vector3, float: real)

  predicate IsSample(d: Draw)
  {
    LengthSquared(d.unit) == 1.0 && IsDraw(d.float)
  }

  // ----- reflection -----

  /** `_reflect(v, n) = v - 2 * v.dot(n) * n`. */
  function Reflect(v: Vector3, n: Vector3): Vector3
  {
    Sub(v, RScale(2.0 * Dot(v, n), n))
  }

  /** `|v - n * k|^2 = |v|^2 - 2k (v . n) + k^2 |n|^2`. */
  lemma {:induction false} ShiftedLength(v: Vector3, n: Vector3, k: real)
    ensures LengthSquared(Sub(v, Scale(n, k))) == LengthSquared(v) - 2.0 * k * Dot(v, n) + k * k * LengthSquared(n)
  {
    ShiftSum(v.x, v.y, v.z, n.x, n.y, n.z, k);
  }

  lemma ShiftSum(a: real, b: real, c: real, p: real, q: real, s: real, k: real)
    ensures Sq(a - p * k) + Sq(b - q * k) + Sq(c - s * k)
         == (Sq(a) + Sq(b) + Sq(c)) - 2.0 * k * (a * p + b * q + c * s) + k * k * (Sq(p) + Sq(q) + Sq(s))
  {
    assert Sq(a - p * k) == (a - p * k) * (a - p * k);
    assert Sq(b - q * k) == (b - q * k) * (b - q * k);
    assert Sq(c - s * k) == (c - s * k) * (c - s * k);
    assert Sq(a) + Sq(b) + Sq(c) == a * a + b * b + c * c;
    assert Sq(p) + Sq(q) + Sq(s) == p * p + q * q + s * s;
  }

  /** About a unit normal, reflection negates the normal component and
      keeps the length. */
  lemma {:induction false} ReflectMirrors(v: Vector3, n: Vector3)
    requires LengthSquared(n) == 1.0
    ensures Dot(Reflect(v, n), n) == -Dot(v, n)
    ensures LengthSquared(Reflect(v, n)) == LengthSquared(v)
  {
    var d := Dot(v, n);
    var k := 2.0 * d;
    assert Reflect(v, n) == Sub(v, Scale(n, k));
    assert Dot(n, n) == LengthSquared(n);
    DotSubLeft(v, Scale(n, k), n);
    DotScaleLeft(n, k, n);
    ShiftedLength(v, n, k);
    assert k * k * 1.0 == 2.0 * k * d;
  }

  // ----- Lambertian -----

  /** `Lambertian(albedo, texture)`: an albedo becomes a solid texture and
      wins over a texture; with neither, no texture is stored. */
  function MakeLambertian(albedo: Option<Color>, texture: Option<Texture>): (r: Material)
    ensures albedo.Some? ==> r == Lambertian(Some(Solid(albedo.value)))
    ensures albedo.None? ==> r == Lambertian(texture)
  {
    if albedo.Some? then Lambertian(Some(MakeSolid(albedo, 0.0, 0.0, 0.0).value))
    else Lambertian(texture)
  }

  /** `Lambertian.scatter`: always scatters, from the hit point and at the
      incoming ray's time, towards `normal + sample`, or along the normal
      itself when that sum is nearly zero. The attenuation is the texture's
      value; a Lambertian built without a texture raises AttributeError. */
  function LambertianScatter(tex: Option<Texture>, rIn: Ray, rec: HitInfo<Material>, d: Draw,
                             pl: Perlins.Perlin): (r: Result<Outcome>)
    requires Perlins.Valid(pl)
    ensures r.Ok? <==> tex.Some? && Value(tex.value, rec.u, rec.v, rec.p, pl).Ok?
    ensures r.Ok? ==> (r.value.Triple? && r.value.flag
      && r.value.attenuation == Value(tex.value, rec.u, rec.v, rec.p, pl).value
      && r.value.scattered.orig == rec.p && r.value.scattered.time == rIn.time
      && (r.value.scattered.dir == Add(rec.normal, d.unit) || r.value.scattered.dir == rec.normal))
    ensures r.Ok? ==> (NearZero(Add(rec.normal, d.unit)) ==> r.value.scattered.dir == rec.normal)
    ensures r.Ok? ==> (!NearZero(Add(rec.normal, d.unit)) ==> r.value.scattered.dir == Add(rec.normal, d.unit))
    ensures r.Ok? && !NearZero(rec.normal) ==> !NearZero(r.value.scattered.dir)
    ensures tex.None? ==> r == Raise(AttributeError)
    ensures r.Raise? ==> r.error == AttributeError || r.error == IndexError
  {
    var sum := Add(rec.normal, d.unit);
    var dir := if NearZero(sum) then rec.normal else sum;
    if tex.None? then Raise(AttributeError)
    else
      var attenuation :- Value(tex.value, rec.u, rec.v, rec.p, pl);
      Ok(Triple(true, attenuation, Ray(rec.p, dir, rIn.time)))
  }

  /** A unit normal is not near zero, so Lambertian scattering never
      produces a (nearly) zero direction. */
  lemma {:induction false} LambertianDirectionNonZero(tex: Option<Texture>, rIn: Ray, rec: HitInfo<Material>,
                                                      d: Draw, pl: Perlins.Perlin)
    requires Perlins.Valid(pl) && LengthSquared(rec.normal) == 1.0
    ensures var r := LambertianScatter(tex, rIn, rec, d, pl);
      r.Ok? ==> r.value.scattered.dir != Zero
  {
    NearZeroShort(rec.normal);
    NearZeroShort(Zero);
  }

  // ----- Metal -----

  /** `Metal(albedo, fuzz)`: the fuzz is capped at 1 and has no lower bound. */
  function MakeMetal(albedo: Color, fuzz: real): (r: Material)
    ensures r.Metal? && r.albedo == albedo
    ensures r.fuzz <= 1.0 && r.fuzz <= fuzz
    ensures fuzz < 1.0 ==> r.fuzz == fuzz
  {
    Metal(albedo, if fuzz < 1.0 then fuzz else 1.0)
  }

  /** `Metal.scatter`: the unit mirror direction perturbed by `fuzz` times
      the sample. It scatters only when the result leaves the surface on the
      normal's side; a zero reflected vector cannot be normalised. */
  function MetalScatter(albedo: Color, fuzz: real, rIn: Ray, rec: HitInfo<Material>, d: Draw,
                        m: Oracle): (r: Result<Outcome>)
    requires Lawful(m)
    ensures r.Ok? <==> Reflect(rIn.dir, rec.normal) != Zero
    ensures r.Raise? ==> r.error == ZeroDivisionError
    ensures r.Ok? ==> (r.value.Triple? && r.value.attenuation == albedo
      && r.value.scattered.orig == rec.p && r.value.scattered.time == rIn.time
      && (r.value.flag <==> Dot(r.value.scattered.dir, rec.normal) > 0.0))
    ensures r.Ok? ==> (var mirror := Sub(r.value.scattered.dir, RScale(fuzz, d.unit));
      LengthSquared(mirror) == 1.0 && exists k :: k > 0.0 && mirror == Scale(Reflect(rIn.dir, rec.normal), k))
  {
    var reflected :- Normalize(m, Reflect(rIn.dir, rec.normal));
    var scattered := Ray(rec.p, Add(reflected, RScale(fuzz, d.unit)), rIn.time);
    AddSubCancel(reflected, RScale(fuzz, d.unit));
    Ok(Triple(Dot(scattered.dir, rec.normal) > 0.0, albedo, scattered))
  }

  /** A perfect mirror (no fuzz) about a unit normal scatters exactly the
      rays that arrive against the normal. */
  lemma {:induction false} MirrorScattersIncoming(albedo: Color, rIn: Ray, rec: HitInfo<Material>, d: Draw,
                                                  m: Oracle)
    requires Lawful(m) && LengthSquared(rec.normal) == 1.0 && rIn.dir != Zero
    ensures var r := MetalScatter(albedo, 0.0, rIn, rec, d, m);
      r.Ok? && (r.value.flag <==> Dot(rIn.dir, rec.normal) < 0.0)
  {
    var v := Reflect(rIn.dir, rec.normal);
    ReflectMirrors(rIn.dir, rec.normal);
    assert v != Zero;
    var u := Normalize(m, v).value;
    var k :| k > 0.0 && u == Scale(v, k);
    DotScaleLeft(v, k, rec.normal);
    assert Add(u, RScale(0.0, d.unit)) == u;
    var a := Dot(rIn.dir, rec.normal);
    assert Dot(u, rec.normal) == k * -a;
    ProductSign(-a, k);
  }

  // ----- Dielectric -----

  /** The refraction ratio: `1 / refraction_index` on a front face, the
      index itself otherwise. */
  function Ratio(frontFace: bool, index: real): (r: Result<real>)
    ensures r.Raise? <==> frontFace && index == 0.0
    ensures r.Raise? ==> r.error == ZeroDivisionError
    ensures r.Ok? && frontFace ==> r.value * index == 1.0
    ensures r.Ok? && !frontFace ==> r.value == index
  {
    if frontFace then (if index == 0.0 then Raise(ZeroDivisionError) else Ok(1.0 / index))
    else Ok(index)
  }

  /** `_reflectance(cosine, eta)`: Schlick's approximation. */
  function Reflectance(cosine: real, eta: real): (r: Result<real>)
    ensures r.Raise? <==> eta == -1.0
    ensures r.Raise? ==> r.error == ZeroDivisionError
  {
    if 1.0 + eta == 0.0 then Raise(ZeroDivisionError)
    else
      var r0 := (1.0 - eta) / (1.0 + eta);
      var r0 := r0 * r0;
      Ok(r0 + (1.0 - r0) * Pow5(1.0 - cosine))
  }

  /** `pow(x, 5)`. */
  function Pow5(x: real): real
  {
    x * x * x * x * x
  }

  /** The normal-incidence reflectance `((1 - eta) / (1 + eta))^2`. */
  function R0(eta: real): (r: real)
    requires eta != -1.0
  {
    ((1.0 - eta) / (1.0 + eta)) * ((1.0 - eta) / (1.0 + eta))
  }

  lemma Pow5Unit(x: real)
    requires 0.0 <= x <= 1.0
    ensures 0.0 <= Pow5(x) <= 1.0
  {
    FractionBetween(1.0, x);
    FractionBetween(x, x);
    FractionBetween(x * x, x);
    FractionBetween(x * x * x, x);
    FractionBetween(x * x * x * x, x);
  }

  lemma R0Bounds(eta: real)
    requires eta > 0.0
    ensures 0.0 <= R0(eta) < 1.0
  {
    var q := (1.0 - eta) / (1.0 + eta);
    assert -1.0 < q < 1.0;
    SqMonotone(Abs(q), 1.0);
    SqNeg(q);
    assert R0(eta) == Sq(q);
  }

  /** For a positive index ratio the reflectance is `r0` at normal
      incidence and lies in `[r0, 1]` for cosines in `[0, 1]`, with
      `0 <= r0 < 1`. */
  lemma {:induction false} ReflectanceBounds(cosine: real, eta: real)
    requires eta > 0.0
    ensures 0.0 <= R0(eta) < 1.0
    ensures Reflectance(cosine, eta).Ok?
    ensures cosine == 1.0 ==> Reflectance(cosine, eta).value == R0(eta)
    ensures 0.0 <= cosine <= 1.0 ==> R0(eta) <= Reflectance(cosine, eta).value <= 1.0
  {
    R0Bounds(eta);
    var r0 := R0(eta);
    var p := Pow5(1.0 - cosine);
    assert Reflectance(cosine, eta).value == r0 + (1.0 - r0) * p;
    if cosine == 1.0 {
      assert p == 0.0;
    }
    if 0.0 <= cosine <= 1.0 {
      Pow5Unit(1.0 - cosine);
      FractionBetween(1.0 - r0, p);
      assert 0.0 <= (1.0 - r0) * p <= 1.0 - r0;
    }
  }

  /** `min(x, 1.0)`. */
  function AtMostOne(x: real): (r: real)
    ensures r <= 1.0 && r <= x && (r == x || r == 1.0)
  {
    if 1.0 < x then 1.0 else x
  }

  /** `_refract(uv, n, etai_over_eta)`: the part of the direction across
      the normal, scaled by the ratio, plus the part along the normal that
      completes a unit vector. */
  function Refract(m: Oracle, uv: Vector3, n: Vector3, eta: real): Vector3
  {
    var cosTheta := AtMostOne(Dot(n, Neg(uv)));
    var perp := RScale(eta, Add(uv, RScale(cosTheta, n)));
    var parallel := RScale(-m.sqrt(Abs(1.0 - LengthSquared(perp))), n);
    Add(perp, parallel)
  }

  /** With a ratio of 1 a unit ray meeting a unit normal head-on passes
      straight through. */
  lemma {:induction false} RefractSameMedium(m: Oracle, uv: Vector3, n: Vector3)
    requires Lawful(m) && LengthSquared(uv) == 1.0 && LengthSquared(n) == 1.0
    requires 0.0 <= Dot(n, Neg(uv)) <= 1.0
    ensures Refract(m, uv, n, 1.0) == uv
  {
    var c := Dot(n, Neg(uv));
    var perp := Add(uv, RScale(c, n));
    assert RScale(1.0, perp) == perp;
    PerpLength(uv, n, c);
    UnitSquare(c);
    SqrtUnique(m, Sq(c), c);
    assert Abs(1.0 - LengthSquared(perp)) == Sq(c);
  }

  /** The part of a unit `uv` across a unit `n` has squared length
      `1 - cos^2`. */
  lemma {:induction false} PerpLength(uv: Vector3, n: Vector3, c: real)
    requires LengthSquared(uv) == 1.0 && LengthSquared(n) == 1.0 && c == Dot(n, Neg(uv))
    ensures LengthSquared(Add(uv, RScale(c, n))) == 1.0 - c * c
  {
    DotNegRight(n, uv);
    DotSymmetric(n, uv);
    assert Dot(uv, n) == -c;
    NegScale(uv, n, c);
    AlongUnit(uv, n, -c);
    assert (-c) * (-c) == c * c;
  }

  lemma NegScale(v: Vector3, n: Vector3, c: real)
    ensures Add(v, RScale(c, n)) == Sub(v, Scale(n, -c))
  {
  }

  /** Removing from `v` its component `k` along a unit `n` takes `k^2` off
      its squared length. */
  lemma {:induction false} AlongUnit(v: Vector3, n: Vector3, k: real)
    requires LengthSquared(n) == 1.0 && Dot(v, n) == k
    ensures LengthSquared(Sub(v, Scale(n, k))) == LengthSquared(v) - k * k
  {
    ShiftedLength(v, n, k);
  }

  /** A cosine squares into `[0, 1]`. */
  lemma UnitSquare(c: real)
    ensures -1.0 <= c <= 1.0 ==> 0.0 <= c * c <= 1.0
  {
    if 0.0 <= c <= 1.0 {
      FractionBetween(c, c);
    } else if -1.0 <= c < 0.0 {
      FractionBetween(-c, -c);
    }
  }

  /** `sqrt(1.0 - cos_theta * cos_theta)`; a negative argument raises
      ValueError, which a cosine in `[-1, 1]` never gives. */
  function SinTheta(m: Oracle, c: real): (r: Result<real>)
    ensures r.Raise? ==> r.error == ValueError
    ensures -1.0 <= c <= 1.0 ==> r.Ok?
  {
    UnitSquare(c);
    if 1.0 - c * c < 0.0 then Raise(ValueError)
    else Ok(m.sqrt(1.0 - c * c))
  }

  /** For a cosine in `[-1, 1]` the sine lies in `[0, 1]`. */
  lemma {:induction false} SinThetaUnit(m: Oracle, c: real)
    requires Lawful(m) && -1.0 <= c <= 1.0
    ensures 0.0 <= SinTheta(m, c).value <= 1.0
  {
    UnitSquare(c);
    SqrtOf(m, 1.0 - c * c);
    var s := m.sqrt(1.0 - c * c);
    if s > 1.0 {
      SqMonotone(1.0, s);
    }
  }

  /** The test of lines 75-76 of `Dielectric.scatter`, for the unit
      incoming direction `ud`: true when the ray cannot refract
      (`ri * sin(theta) > 1`) or, only then evaluated, when Schlick's
      reflectance beats the draw. */
  function Reflects(m: Oracle, ud: Vector3, n: Vector3, ri: real, draw: real): (r: Result<bool>)
    requires IsDraw(draw)
    ensures r.Raise? ==> r.error == ValueError || r.error == ZeroDivisionError
  {
    var cosTheta := AtMostOne(Dot(n, Neg(ud)));
    var sinTheta :- SinTheta(m, cosTheta);
    if Prod(ri, sinTheta) > 1.0 then Ok(true)
    else
      var reflectance :- Reflectance(cosTheta, ri);
      Ok(reflectance > RandomFloat(0.0, 1.0, draw))
  }

  /** Past the critical angle (`ri * sin(theta) > 1`) the ray is always
      reflected, whatever the draw, and Schlick's formula is not evaluated:
      even a ratio of -1 does not raise. */
  lemma {:induction false} TotalInternalReflection(m: Oracle, ud: Vector3, n: Vector3, ri: real, draw: real)
    requires IsDraw(draw)
    requires var s := SinTheta(m, AtMostOne(Dot(n, Neg(ud)))); s.Ok? && Prod(ri, s.value) > 1.0
    ensures Reflects(m, ud, n, ri, draw) == Ok(true)
  {
  }

  /** With a ratio in `(0, 1]`, as when entering a denser medium, there is
      no total internal reflection: Schlick's reflectance against the draw
      alone decides. */
  lemma {:induction false} DenserMediumRefracts(m: Oracle, ud: Vector3, n: Vector3, ri: real, draw: real)
    requires Lawful(m) && IsDraw(draw) && 0.0 < ri <= 1.0
    requires -1.0 <= Dot(n, Neg(ud))
    ensures var c := AtMostOne(Dot(n, Neg(ud)));
      Reflectance(c, ri).Ok?
      && Reflects(m, ud, n, ri, draw) == Ok(Reflectance(c, ri).value > draw)
  {
    var c := AtMostOne(Dot(n, Neg(ud)));
    SinThetaUnit(m, c);
    NoCriticalAngle(SinTheta(m, c).value, ri);
    ReflectanceBounds(c, ri);
  }

  lemma NoCriticalAngle(s: real, ri: real)
    requires 0.0 <= s <= 1.0 && 0.0 < ri <= 1.0
    ensures Prod(ri, s) <= 1.0
  {
    FractionBetween(s, ri);
  }

  /** `Dielectric.scatter`: always scatters, with attenuation white, from
      the hit point at the incoming ray's time, along the mirror direction
      or the refracted one as `Reflects` decides. */
  function DielectricScatter(index: real, rIn: Ray, rec: HitInfo<Material>, d: Draw, m: Oracle): (r: Result<Outcome>)
    requires Lawful(m) && IsDraw(d.float)
    ensures r.Ok? ==> (r.value.Triple? && r.value.flag && r.value.attenuation == Vector3(1.0, 1.0, 1.0)
      && r.value.scattered.orig == rec.p && r.value.scattered.time == rIn.time)
    ensures r.Ok? ==> (Normalize(m, rIn.dir).Ok? && Ratio(rec.frontFace, index).Ok?
      && var ud := Normalize(m, rIn.dir).value;
      (r.value.scattered.dir == Reflect(ud, rec.normal)
       || r.value.scattered.dir == Refract(m, ud, rec.normal, Ratio(rec.frontFace, index).value)))
    ensures r.Ok? ==> (Normalize(m, rIn.dir).Ok? && Ratio(rec.frontFace, index).Ok?
      && var ud := Normalize(m, rIn.dir).value;
      var ri := Ratio(rec.frontFace, index).value;
      Reflects(m, ud, rec.normal, ri, d.float).Ok?
      && r.value.scattered.dir
         == (if Reflects(m, ud, rec.normal, ri, d.float).value then Reflect(ud, rec.normal)
             else Refract(m, ud, rec.normal, ri)))
    ensures r.Raise? ==> r.error == ZeroDivisionError || r.error == ValueError
    ensures rec.frontFace && index == 0.0 ==> r == Raise(ZeroDivisionError)
    ensures rIn.dir == Zero && Ratio(rec.frontFace, index).Ok? ==> r == Raise(ZeroDivisionError)
  {
    var ri :- Ratio(rec.frontFace, index);
    var ud :- Normalize(m, rIn.dir);
    var reflects :- Reflects(m, ud, rec.normal, ri, d.float);
    var dir := if reflects then Reflect(ud, rec.normal) else Refract(m, ud, rec.normal, ri);
    Ok(Triple(true, Vector3(1.0, 1.0, 1.0), Ray(rec.p, dir, rIn.time)))
  }

  // ----- dispatch -----

  /** `material.scatter(r_in, rec)`. */
  function Scatter(mat: Material, rIn: Ray, rec: HitInfo<Material>, d: Draw, m: Oracle,
                   pl: Perlins.Perlin): (r: Result<Outcome>)
    requires Lawful(m) && IsDraw(d.float) && Perlins.Valid(pl)
    ensures mat.Base? <==> r == Ok(Bare(false))
    ensures r.Ok? && !mat.Base? ==> (r.value.Triple?
      && r.value.scattered.orig == rec.p && r.value.scattered.time == rIn.time)
    ensures r.Ok? && (mat.Lambertian? || mat.Dielectric?) ==> r.value.flag
  {
    match mat
    case Base => Ok(Bare(false))
    case Lambertian(tex) => LambertianScatter(tex, rIn, rec, d, pl)
    case Metal(albedo, fuzz) => MetalScatter(albedo, fuzz, rIn, rec, d, m)
    case Dielectric(index) => DielectricScatter(index, rIn, rec, d, m)
  }

  /** `rec.mat.emitted(u, v, p)`: no material class defines `emitted`, so
      the attribute lookup raises AttributeError. */
  function Emitted(mat: Material, u: real, v: real, p: Point3): (r: Result<Color>)
    ensures r.Raise? && r.error == AttributeError
  {
    Raise(AttributeError)
  }

  /** `emitted` with the default of a non-emitting material: black. */
  function EmittedDefault(mat: Material, u: real, v: real, p: Point3): (r: Result<Color>)
    ensures r == Ok(Zero)
  {
    Ok(Zero)
  }

  // ----- the earliest renderer -----

  datatype SrcMaterial = SrcBase | SrcLambertian(albedo: Color) | SrcMetal(albedo: Color)

  /** `scatter` of the earliest renderer: Lambertian and metal always
      scatter, the metal along the exact mirror direction, and rays carry
      no time (0 here). */
  function SrcScatter(mat: SrcMaterial, rIn: Ray, rec: HitInfo<SrcMaterial>, unit: Vector3): (r: Outcome)
    ensures mat.SrcBase? <==> r == Bare(false)
    ensures r.Triple? ==> (r.flag && r.attenuation == mat.albedo
      && r.scattered.orig == rec.p && r.scattered.time == 0.0)
    ensures mat.SrcLambertian? ==> (r.Triple?
      && (NearZero(Add(rec.normal, unit)) ==> r.scattered.dir == rec.normal)
      && (!NearZero(Add(rec.normal, unit)) ==> r.scattered.dir == Add(rec.normal, unit)))
    ensures mat.SrcMetal? ==> r.Triple? && r.scattered.dir == Reflect(rIn.dir, rec.normal)
  {
    match mat
    case SrcBase => Bare(false)
    case SrcLambertian(albedo) =>
      var sum := Add(rec.normal, unit);
      Triple(true, albedo, Untimed(rec.p, if NearZero(sum) then rec.normal else sum))
    case SrcMetal(albedo) =>
      Triple(true, albedo, Untimed(rec.p, Reflect(rIn.dir, rec.normal)))
  }

  /** The earliest metal mirrors the incoming ray about a unit normal. */
  lemma {:induction false} SrcMetalMirrors(albedo: Color, rIn: Ray, rec: HitInfo<SrcMaterial>, unit: Vector3)
    requires LengthSquared(rec.normal) == 1.0
    ensures var r := SrcScatter(SrcMetal(albedo), rIn, rec, unit);
      Dot(r.scattered.dir, rec.normal) == -Dot(rIn.dir, rec.normal)
      && LengthSquared(r.scattered.dir) == LengthSquared(rIn.dir)
  {
    ReflectMirrors(rIn.dir, rec.normal);
  }
}
