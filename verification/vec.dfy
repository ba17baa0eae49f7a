/** `Vector3` of the ray tracer (`Point3` and `Color` are the same type):
    an immutable triple with component-wise arithmetic. Every Python
    operator, the in-place ones included, builds a new value. */
module Vec {
  import opened Wrappers
  import opened MathLib

  datatype Vector3 = Vector3(x: real, y: real, z: real)

  type Point3 = Vector3
  type Color = Vector3

  const Zero := Vector3(0.0, 0.0, 0.0)

  function Neg(v: Vector3): Vector3
  {
    Vector3(-v.x, -v.y, -v.z)
  }

  /** `v[key]`: 0, 1, 2 select x, y, z; any other key raises IndexError. */
  function Get(v: Vector3, key: int): (r: Result<real>)
    ensures r.Ok? <==> 0 <= key < 3
    ensures r.Ok? ==> r.value == [v.x, v.y, v.z][key]
    ensures r.Raise? ==> r.error == IndexError
  {
    if key == 0 then Ok(v.x)
    else if key == 1 then Ok(v.y)
    else if key == 2 then Ok(v.z)
    else Raise(IndexError)
  }

  function Add(a: Vector3, b: Vector3): Vector3
  {
    Vector3(a.x + b.x, a.y + b.y, a.z + b.z)
  }

  function Sub(a: Vector3, b: Vector3): Vector3
  {
    Vector3(a.x - b.x, a.y - b.y, a.z - b.z)
  }

  /** `a * b` with a `Vector3` operand: component-wise. */
  function Mul(a: Vector3, b: Vector3): Vector3
  {
    Vector3(a.x * b.x, a.y * b.y, a.z * b.z)
  }

  /** `v * s` with a float operand. */
  function Scale(v: Vector3, s: real): Vector3
  {
    Vector3(v.x * s, v.y * s, v.z * s)
  }

  /** `s * v` (`__rmul__`): the same vector as `v * s`. */
  function RScale(s: real, v: Vector3): (r: Vector3)
    ensures r == Scale(v, s)
  {
    Vector3(v.x * s, v.y * s, v.z * s)
  }

  /** `v / s`; a zero divisor raises ZeroDivisionError in Python. */
  function Div(v: Vector3, s: real): Vector3
    requires s != 0.0
  {
    Vector3(v.x / s, v.y / s, v.z / s)
  }

  /** `a += b` rebinds the name to a new vector equal to `a + b`. */
  function IAdd(a: Vector3, b: Vector3): (r: Vector3)
    ensures r == Add(a, b)
  {
    Vector3(a.x + b.x, a.y + b.y, a.z + b.z)
  }

  /** `v *= s` rebinds the name to a new vector equal to `v * s`. */
  function IMul(v: Vector3, s: real): (r: Vector3)
    ensures r == Scale(v, s)
  {
    Vector3(v.x * s, v.y * s, v.z * s)
  }

  /** `v /= s` is computed as `v *= 1/s`; over the reals that is `v / s`. */
  function ITrueDiv(v: Vector3, s: real): (r: Vector3)
    requires s != 0.0
    ensures r == Div(v, s)
  {
    IMul(v, 1.0 / s)
  }

  function Dot(a: Vector3, b: Vector3): real
  {
    a.x * b.x + a.y * b.y + a.z * b.z
  }

  function Cross(a: Vector3, b: Vector3): Vector3
  {
    Vector3(a.y * b.z - a.z * b.y,
            a.z * b.x - a.x * b.z,
            a.x * b.y - a.y * b.x)
  }

  /** `v.x**2 + v.y**2 + v.z**2`: never negative, and zero only for the
      zero vector. */
  function LengthSquared(v: Vector3): (r: real)
    ensures 0.0 <= r
    ensures r == 0.0 <==> v == Zero
  {
    Sq(v.x) + Sq(v.y) + Sq(v.z)
  }

  /** `sqrt(length_squared)`: the non-negative number whose square is the
      squared length, zero only for the zero vector. */
  function Length(m: Oracle, v: Vector3): (r: real)
    requires Lawful(m)
    ensures 0.0 <= r && Sq(r) == LengthSquared(v)
    ensures r == 0.0 <==> v == Zero
  {
    SqrtOf(m, LengthSquared(v));
    m.sqrt(LengthSquared(v))
  }

  /** Scaling a vector scales its squared length by the square factor. */
  lemma {:induction false} LengthSquaredScale(v: Vector3, k: real)
    ensures LengthSquared(Scale(v, k)) == LengthSquared(v) * Sq(k)
  {
    SqMul(v.x, k);
    SqMul(v.y, k);
    SqMul(v.z, k);
  }

  /** `v / v.length()`: a vector of length 1 pointing the same way as `v`.
      The zero vector raises ZeroDivisionError in Python. */
  function UnitVector(m: Oracle, v: Vector3): (r: Vector3)
    requires Lawful(m) && v != Zero
    ensures LengthSquared(r) == 1.0
    ensures Length(m, r) == 1.0
    ensures exists k :: k > 0.0 && r == Scale(v, k)
  {
    var len := Length(m, v);
    DivUnit(m, v, len);
    Div(v, len)
  }

  lemma DivUnit(m: Oracle, v: Vector3, len: real)
    requires Lawful(m) && v != Zero && len == Length(m, v)
    ensures len > 0.0 && 1.0 / len > 0.0
    ensures Div(v, len) == Scale(v, 1.0 / len)
    ensures LengthSquared(Div(v, len)) == 1.0 && Length(m, Div(v, len)) == 1.0
  {
    assert Div(v, len) == Scale(v, 1.0 / len);
    UnitLength(v, len);
    SqrtUnique(m, 1.0, 1.0);
  }

  lemma {:induction false} UnitLength(v: Vector3, len: real)
    requires len != 0.0 && Sq(len) == LengthSquared(v)
    ensures LengthSquared(Scale(v, 1.0 / len)) == 1.0
  {
    var k := 1.0 / len;
    LengthSquaredScale(v, k);
    SqMul(len, k);
    assert len * k == 1.0;
    calc {
      LengthSquared(Scale(v, k));
      Sq(len) * Sq(k);
      Sq(len * k);
      Sq(1.0);
    }
  }

  /** `(a - b) + b == a` over the reals. */
  lemma SubAddCancel(a: Vector3, b: Vector3)
    ensures Add(Sub(a, b), b) == a
  {
  }

  /** `(a + b) - b == a` over the reals. */
  lemma AddSubCancel(a: Vector3, b: Vector3)
    ensures Sub(Add(a, b), b) == a
  {
  }

  lemma DotSymmetric(a: Vector3, b: Vector3)
    ensures Dot(a, b) == Dot(b, a)
  {
  }

  /** The cross product is orthogonal to both operands. */
  lemma CrossOrthogonal(a: Vector3, b: Vector3)
    ensures Dot(a, Cross(a, b)) == 0.0 && Dot(b, Cross(a, b)) == 0.0
  {
  }

  /** The cross product is anti-commutative. */
  lemma CrossAntiCommutes(a: Vector3, b: Vector3)
    ensures Cross(a, b) == Neg(Cross(b, a))
  {
  }

  /** Bilinearity facts used by the reflection and plane proofs. */
  lemma DotAddLeft(a: Vector3, b: Vector3, c: Vector3)
    ensures Dot(Add(a, b), c) == Dot(a, c) + Dot(b, c)
  {
  }

  lemma DotSubLeft(a: Vector3, b: Vector3, c: Vector3)
    ensures Dot(Sub(a, b), c) == Dot(a, c) - Dot(b, c)
  {
  }

  lemma DotScaleLeft(a: Vector3, s: real, c: Vector3)
    ensures Dot(Scale(a, s), c) == s * Dot(a, c)
  {
  }

  lemma DotNegRight(a: Vector3, c: Vector3)
    ensures Dot(a, Neg(c)) == -Dot(a, c)
  {
  }

  lemma DotZeroRight(a: Vector3)
    ensures Dot(a, Zero) == 0.0
  {
  }

  lemma DotNegLeft(a: Vector3, c: Vector3)
    ensures Dot(Neg(a), c) == -Dot(a, c)
  {
  }
}
