/** The library functions of Python's `math` module that the ray tracer
    calls, and the constant `PI` of its `constants` module. Their values are
    not computed here: an `Oracle` supplies them, and `Lawful` states the
    only facts about them that the model relies on (their ranges). */
module MathLib {

  /** `fabs(x)` */
  function Abs(x: real): (r: real)
    ensures r >= 0.0 && (r == x || r == -x)
  {
    if x < 0.0 then -x else x
  }

  /** `int(x)` on a float: truncation toward zero. */
  function Trunc(x: real): (r: int)
    ensures 0.0 <= x ==> 0 <= r && r as real <= x < r as real + 1.0
    ensures x < 0.0 ==> r <= 0 && r as real - 1.0 < x <= r as real
  {
    if x < 0.0 then -((-x).Floor) else x.Floor
  }

  /** `x * x`, with its sign. */
  function Sq(x: real): (r: real)
    ensures r >= 0.0
    ensures x != 0.0 ==> r > 0.0
  {
    SquareSign(x);
    Prod(x, x)
  }

  lemma SquareSign(x: real)
    ensures Prod(x, x) >= 0.0
    ensures x != 0.0 ==> Prod(x, x) > 0.0
  {
    if x < 0.0 {
      MulNeg(x, x);
    } else if x > 0.0 {
      MulPos(x, x);
    }
  }

  /** A product. Sign facts are stated about `Prod(x, y)` rather than about
      `x * y` itself, which keeps the solver's non-linear reasoning out of
      the proofs that use them. */
  function Prod(x: real, y: real): real
  {
    x * y
  }

  lemma MulPos(x: real, y: real)
    requires x > 0.0 && y > 0.0
    ensures Prod(x, y) > 0.0
  {
  }

  lemma MulNeg(x: real, y: real)
    requires x < 0.0 && y < 0.0
    ensures Prod(x, y) > 0.0
  {
  }

  lemma MulNonNeg(x: real, y: real)
    requires x >= 0.0 && y >= 0.0
    ensures Prod(x, y) >= 0.0
  {
    if x > 0.0 && y > 0.0 { MulPos(x, y); }
  }

  /** A fraction `a` in [0, 1] of `x` lies between 0 and `x`. */
  lemma {:induction false} FractionBetween(x: real, a: real)
    requires 0.0 <= a <= 1.0
    ensures x >= 0.0 ==> 0.0 <= x * a <= x
    ensures x < 0.0 ==> x <= x * a <= 0.0
  {
    if x >= 0.0 {
      MulNonNeg(x, a);
      MulNonNeg(x, 1.0 - a);
      assert x - x * a == Prod(x, 1.0 - a);
    } else {
      MulNonNeg(-x, a);
      MulNonNeg(-x, 1.0 - a);
      assert x * a == -Prod(-x, a);
      assert x * a - x == Prod(-x, 1.0 - a);
    }
  }

  lemma SqMul(x: real, k: real)
    ensures Sq(x * k) == Sq(x) * Sq(k)
  {
  }

  /** Squaring is strictly increasing on the non-negative reals. */
  lemma SqMonotone(a: real, b: real)
    requires 0.0 <= a < b
    ensures Sq(a) < Sq(b)
  {
    MulPos(b - a, b + a);
    assert Sq(b) - Sq(a) == Prod(b - a, b + a);
  }

  /** A non-negative square root is unique. */
  lemma SqInjective(a: real, b: real)
    requires 0.0 <= a && 0.0 <= b && Sq(a) == Sq(b)
    ensures a == b
  {
    if a < b { SqMonotone(a, b); }
    else if b < a { SqMonotone(b, a); }
  }

  lemma SqNeg(x: real)
    ensures Sq(-x) == Sq(x)
  {
  }

  /** A square no larger than `Sq(b)` has its root within `|b|`. */
  lemma {:induction false} SqBound(a: real, b: real)
    requires Sq(a) <= Sq(b)
    ensures b >= 0.0 ==> -b <= a <= b
    ensures b < 0.0 ==> b <= a <= -b
  {
    SqNeg(a);
    SqNeg(b);
    var aa := if a < 0.0 then -a else a;
    var bb := if b < 0.0 then -b else b;
    if bb < aa {
      SqMonotone(bb, aa);
    }
  }

  datatype Oracle = Oracle(
    pi: real,
    sqrt: real -> real,
    acos: real -> real,
    atan2: (real, real) -> real,
    tan: real -> real)

  /** Range facts: `sqrt` is the non-negative square root on non-negative
      arguments, `acos` maps [-1, 1] into [0, PI], `atan2` lands in [-PI, PI]. */
  ghost predicate Lawful(m: Oracle)
  {
    && m.pi > 0.0
    && (forall x :: 0.0 <= x ==> 0.0 <= m.sqrt(x) && Sq(m.sqrt(x)) == x)
    && (forall x :: -1.0 <= x <= 1.0 ==> 0.0 <= m.acos(x) <= m.pi)
    && (forall y, x :: -m.pi <= m.atan2(y, x) <= m.pi)
  }

  lemma SqrtOf(m: Oracle, x: real)
    requires Lawful(m) && 0.0 <= x
    ensures 0.0 <= m.sqrt(x) && Sq(m.sqrt(x)) == x
  {
  }

  /** `sqrt` returns the one non-negative number whose square is `x`. */
  lemma SqrtUnique(m: Oracle, x: real, r: real)
    requires Lawful(m) && 0.0 <= r && Sq(r) == x
    ensures m.sqrt(x) == r
  {
    SqrtOf(m, x);
    SqInjective(m.sqrt(x), r);
  }

  /** The square root of a positive number is positive. */
  lemma SqrtPositive(m: Oracle, x: real)
    requires Lawful(m) && 0.0 < x
    ensures 0.0 < m.sqrt(x)
  {
    SqrtOf(m, x);
  }
}
