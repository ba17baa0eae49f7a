/** Helpers of the first renderer and the earliest one: angle conversion,
    random sampling (every `random.random()` draw is a parameter in
    `[0, 1)`), gamma correction, the near-zero test and the byte written
    for each colour channel. */
module Utils {
  import opened Wrappers
  import opened ExtReals
  import opened MathLib
  import opened Vec
  import opened Intervals

  /** `degrees * PI / 180`: half a turn is `PI`, and the sign is kept. */
  function DegreesToRadians(m: Oracle, degrees: real): (r: real)
    requires Lawful(m)
    ensures degrees == 180.0 ==> r == m.pi
    ensures degrees == 0.0 ==> r == 0.0
    ensures degrees > 0.0 ==> r > 0.0
    ensures degrees < 0.0 ==> r < 0.0
  {
    ProductSign(degrees, m.pi);
    degrees * m.pi / 180.0
  }

  lemma ProductSign(a: real, b: real)
    requires b > 0.0
    ensures a > 0.0 ==> a * b > 0.0
    ensures a < 0.0 ==> a * b < 0.0
  {
    if a > 0.0 {
      MulPos(a, b);
    } else if a < 0.0 {
      MulPos(-a, b);
      assert a * b == -Prod(-a, b);
    }
  }

  /** A draw of `random.random()`. */
  predicate IsDraw(d: real)
  {
    0.0 <= d < 1.0
  }

  /** `random_float(min, max)` for the draw `d`: in `[min, max)` when
      `min < max`. */
  function RandomFloat(min: real, max: real, d: real): (r: real)
    requires IsDraw(d)
    ensures min < max ==> min <= r < max
    ensures min == max ==> r == min
  {
    FractionBelow(max - min, d);
    min + Prod(d, max - min)
  }

  lemma FractionBelow(w: real, d: real)
    requires 0.0 <= d < 1.0
    ensures w > 0.0 ==> 0.0 <= Prod(d, w) < w
    ensures w == 0.0 ==> Prod(d, w) == 0.0
  {
    if w <= 0.0 {
      return;
    }
    MulNonNeg(d, w);
    MulPos(1.0 - d, w);
    assert w - d * w == Prod(1.0 - d, w);
  }

  /** Three draws, one per component. */
  predicate IsDraw3(d: Vector3)
  {
    IsDraw(d.x) && IsDraw(d.y) && IsDraw(d.z)
  }

  /** `random_vector(min, max)` for the draws `d`. */
  function RandomVector(min: real, max: real, d: Vector3): (r: Vector3)
    requires IsDraw3(d)
    ensures min < max ==> min <= r.x < max && min <= r.y < max && min <= r.z < max
  {
    Vector3(RandomFloat(min, max, d.x), RandomFloat(min, max, d.y), RandomFloat(min, max, d.z))
  }

  /** The candidate of the rejection loops: a point of the cube `[-1, 1)^3`. */
  function Candidate(d: Vector3): Vector3
    requires IsDraw3(d)
  {
    RandomVector(-1.0, 1.0, d)
  }

  /** The position of the first draw whose candidate lies inside the unit
      ball, or `|draws|` if there is none. */
  function FirstInside(draws: seq<Vector3>): (k: nat)
    requires forall i :: 0 <= i < |draws| ==> IsDraw3(draws[i])
    ensures k <= |draws|
    ensures k < |draws| ==> LengthSquared(Candidate(draws[k])) < 1.0
    ensures forall j :: 0 <= j < k ==> LengthSquared(Candidate(draws[j])) >= 1.0
  {
    if |draws| == 0 then 0
    else if LengthSquared(Candidate(draws[0])) < 1.0 then 0
    else 1 + FirstInside(draws[1..])
  }

  /** `random_in_unit_sphere()`: candidates are drawn until one has squared
      length below 1. `draws` is the supply of draws, which contains an
      accepted one. */
  method RandomInUnitSphere(draws: seq<Vector3>) returns (p: Vector3)
    requires forall i :: 0 <= i < |draws| ==> IsDraw3(draws[i])
    requires FirstInside(draws) < |draws|
    ensures p == Candidate(draws[FirstInside(draws)])
    ensures LengthSquared(p) < 1.0
    ensures -1.0 <= p.x < 1.0 && -1.0 <= p.y < 1.0 && -1.0 <= p.z < 1.0
  {
    var i := 0;
    while true
      invariant 0 <= i <= FirstInside(draws)
      decreases |draws| - i
    {
      p := Candidate(draws[i]);
      if LengthSquared(p) < 1.0 {
        return;
      }
      i := i + 1;
    }
  }

  /** `v.unit_vector()` with its failure: the zero vector divides by zero. */
  function Normalize(m: Oracle, v: Vector3): (r: Result<Vector3>)
    requires Lawful(m)
    ensures r.Ok? <==> v != Zero
    ensures r.Raise? ==> r.error == ZeroDivisionError
    ensures r.Ok? ==> LengthSquared(r.value) == 1.0 && exists k :: k > 0.0 && r.value == Scale(v, k)
  {
    if v == Zero then Raise(ZeroDivisionError) else Ok(UnitVector(m, v))
  }

  /** `random_unit_vector()`: the accepted candidate, normalised. The
      candidate `(0, 0, 0)` passes the test and then divides by zero. */
  method RandomUnitVector(m: Oracle, draws: seq<Vector3>) returns (r: Result<Vector3>)
    requires Lawful(m)
    requires forall i :: 0 <= i < |draws| ==> IsDraw3(draws[i])
    requires FirstInside(draws) < |draws|
    ensures r == Normalize(m, Candidate(draws[FirstInside(draws)]))
  {
    var p := RandomInUnitSphere(draws);
    r := Normalize(m, p);
  }

  /** `random_on_hemisphere(normal)` for the unit sample `s`: the sample or
      its opposite, whichever is not against the normal. */
  function RandomOnHemisphere(normal: Vector3, s: Vector3): (r: Vector3)
    ensures r == s || r == Neg(s)
    ensures Dot(r, normal) >= 0.0
    ensures Dot(s, normal) > 0.0 <==> r == s && s != Neg(s)
  {
    DotNegLeft(s, normal);
    if Dot(s, normal) > 0.0 then s else Neg(s)
  }

  /** `linear_to_gamma(x)`: the square root of a positive component, else 0. */
  function LinearToGamma(m: Oracle, x: real): (r: real)
    requires Lawful(m)
    ensures r >= 0.0
    ensures x <= 0.0 ==> r == 0.0
    ensures x > 0.0 ==> r > 0.0 && Sq(r) == x
  {
    if x > 0.0 then
      SqrtOf(m, x);
      SqrtPositive(m, x);
      m.sqrt(x)
    else 0.0
  }

  /** Gamma correction keeps the order of intensities. */
  lemma {:induction false} LinearToGammaMonotone(m: Oracle, x: real, y: real)
    requires Lawful(m) && x <= y
    ensures LinearToGamma(m, x) <= LinearToGamma(m, y)
  {
    var a := LinearToGamma(m, x);
    var b := LinearToGamma(m, y);
    if b < a {
      SqMonotone(b, a);
    }
  }

  /** `near_zero(v)`: every component is within `1e-8` of 0. */
  predicate NearZero(v: Vector3)
  {
    Abs(v.x) < 0.00000001 && Abs(v.y) < 0.00000001 && Abs(v.z) < 0.00000001
  }

  /** A near-zero vector is short, the zero vector is near zero, and a
      vector with a component of magnitude `1e-8` or more is not. */
  lemma {:induction false} NearZeroShort(v: Vector3)
    ensures NearZero(v) ==> LengthSquared(v) < 0.0000000000000003
    ensures NearZero(Zero)
    ensures Abs(v.x) >= 0.00000001 || Abs(v.y) >= 0.00000001 || Abs(v.z) >= 0.00000001 ==> !NearZero(v)
  {
    if NearZero(v) {
      var e := 0.00000001;
      SqUnder(v.x, e);
      SqUnder(v.y, e);
      SqUnder(v.z, e);
    }
  }

  lemma SqUnder(a: real, e: real)
    requires Abs(a) < e && e == 0.00000001
    ensures Sq(a) < 0.0000000000000001
  {
    SqNeg(a);
    SqMonotone(Abs(a), e);
    assert Sq(a) == Sq(Abs(a));
  }

  /** The output range of a channel: `Interval(0.000, 0.999)`. */
  const Intensity := Interval(Fin(0.0), Fin(0.999))

  /** `int(256 * intensity.clamp(c))`: a byte. */
  function Byte(c: real): (r: int)
    ensures 0 <= r <= 255
    ensures c <= 0.0 ==> r == 0
    ensures c >= 0.999 ==> r == 255
  {
    var k := Clamp(Intensity, Fin(c));
    var x := if k.Fin? then k.r else 0.0;
    Trunc(256.0 * x)
  }

  /** A brighter channel never gets a smaller byte. */
  lemma {:induction false} ByteMonotone(a: real, b: real)
    requires a <= b
    ensures Byte(a) <= Byte(b)
  {
  }

  /** `write_color` of the first renderer and of `utils.py` in the earliest
      one: gamma correction, then a byte per channel. */
  function GammaBytes(m: Oracle, c: Color): (r: (int, int, int))
    requires Lawful(m)
    ensures 0 <= r.0 <= 255 && 0 <= r.1 <= 255 && 0 <= r.2 <= 255
    ensures c.x <= 0.0 ==> r.0 == 0
    ensures c.y <= 0.0 ==> r.1 == 0
    ensures c.z <= 0.0 ==> r.2 == 0
  {
    (Byte(LinearToGamma(m, c.x)), Byte(LinearToGamma(m, c.y)), Byte(LinearToGamma(m, c.z)))
  }

  /** `write_color` of the earliest renderer's `vec.py`: no gamma step. */
  function RawBytes(c: Color): (r: (int, int, int))
    ensures 0 <= r.0 <= 255 && 0 <= r.1 <= 255 && 0 <= r.2 <= 255
    ensures c.x >= 0.999 ==> r.0 == 255
    ensures c.y >= 0.999 ==> r.1 == 255
    ensures c.z >= 0.999 ==> r.2 == 255
    ensures c.x <= 0.0 ==> r.0 == 0
    ensures c.y <= 0.0 ==> r.1 == 0
    ensures c.z <= 0.0 ==> r.2 == 0
  {
    (Byte(c.x), Byte(c.y), Byte(c.z))
  }
}
