/** Python floats restricted to the values the model needs: every finite
    real number and the two infinities (`constants.INFINITY`). NaN is not a
    value of this type; the operations that could produce it say so in their
    preconditions. */
module ExtReals {

  datatype ExtReal = NegInf | Fin(r: real) | PosInf

  /** `a <= b` on floats */
  predicate Le(a: ExtReal, b: ExtReal)
  {
    match (a, b)
    case (NegInf, _) => true
    case (_, PosInf) => true
    case (Fin(x), Fin(y)) => x <= y
    case _ => false
  }

  /** `a < b` on floats */
  predicate Lt(a: ExtReal, b: ExtReal)
  {
    Le(a, b) && a != b
  }

  /** `a + d` for a finite `d` */
  function Plus(a: ExtReal, d: real): (r: ExtReal)
    ensures r.Fin? <==> a.Fin?
  {
    match a
    case Fin(x) => Fin(x + d)
    case _ => a
  }

  /** `a * k` for a non-zero finite `k`: an infinity changes sign with `k`. */
  function Times(a: ExtReal, k: real): (r: ExtReal)
    requires k != 0.0
    ensures r.Fin? <==> a.Fin?
  {
    match a
    case Fin(x) => Fin(x * k)
    case NegInf => if k > 0.0 then NegInf else PosInf
    case PosInf => if k > 0.0 then PosInf else NegInf
  }

  /** `a - b`; Python gives NaN when both are the same infinity. */
  predicate MinusDefined(a: ExtReal, b: ExtReal)
  {
    a.Fin? || b.Fin? || a != b
  }

  function Minus(a: ExtReal, b: ExtReal): (r: ExtReal)
    requires MinusDefined(a, b)
    ensures a.Fin? && b.Fin? ==> r == Fin(a.r - b.r)
    ensures Le(Fin(0.0), r) <==> Le(b, a)
  {
    match (a, b)
    case (Fin(x), Fin(y)) => Fin(x - y)
    case (PosInf, _) => PosInf
    case (_, NegInf) => PosInf
    case _ => NegInf
  }

  lemma LeTotal(a: ExtReal, b: ExtReal)
    ensures Le(a, b) || Le(b, a)
  {
  }

  lemma LeTrans(a: ExtReal, b: ExtReal, c: ExtReal)
    requires Le(a, b) && Le(b, c)
    ensures Le(a, c)
  {
  }

  lemma LeAntisym(a: ExtReal, b: ExtReal)
    requires Le(a, b) && Le(b, a)
    ensures a == b
  {
  }
}
