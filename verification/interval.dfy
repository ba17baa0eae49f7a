/** `Interval`: a range of floats `[min, max]` with infinite ends allowed.
    `EMPTY` is `(+inf, -inf)` and `UNIVERSE` is `(-inf, +inf)`. */
module Intervals {
  import opened Wrappers
  import opened ExtReals

  datatype Interval = Interval(min: ExtReal, max: ExtReal)

  const EMPTY := Interval(PosInf, NegInf)
  const UNIVERSE := Interval(NegInf, PosInf)

  predicate Contains(i: Interval, x: ExtReal)
  {
    Le(i.min, x) && Le(x, i.max)
  }

  predicate Surrounds(i: Interval, x: ExtReal)
  {
    Lt(i.min, x) && Lt(x, i.max)
  }

  /** Every value of `inner` is a value of `outer`. */
  ghost predicate Covers(outer: Interval, inner: Interval)
  {
    forall x :: Contains(inner, x) ==> Contains(outer, x)
  }

  /** The interval spanning two intervals: the smaller of the two minima and
      the larger of the two maxima. */
  function Merge(a: Interval, b: Interval): (r: Interval)
    ensures Le(r.min, a.min) && Le(r.min, b.min) && (r.min == a.min || r.min == b.min)
    ensures Le(a.max, r.max) && Le(b.max, r.max) && (r.max == a.max || r.max == b.max)
  {
    Interval(if Lt(a.min, b.min) then a.min else b.min,
             if Lt(b.max, a.max) then a.max else b.max)
  }

  /** `Interval(min, max, a, b)`: the bounds as given, unless both `a` and
      `b` are given, in which case the result spans both of them. With no
      argument at all it is the universe. */
  function Make(min: ExtReal, max: ExtReal, a: Option<Interval>, b: Option<Interval>): (r: Interval)
    ensures a.Some? && b.Some? ==> Covers(r, a.value) && Covers(r, b.value)
    ensures a.Some? && b.Some? ==> r.min in {a.value.min, b.value.min} && r.max in {a.value.max, b.value.max}
    ensures !(a.Some? && b.Some?) ==> r.min == min && r.max == max
  {
    if a.Some? && b.Some? then
      MergeCovers(a.value, b.value);
      Merge(a.value, b.value)
    else
      Interval(min, max)
  }

  /** The merged interval contains everything either operand contains. */
  lemma {:induction false} MergeCovers(a: Interval, b: Interval)
    ensures Covers(Merge(a, b), a) && Covers(Merge(a, b), b)
  {
    var m := Merge(a, b);
    forall x | Contains(a, x) ensures Contains(m, x) {
      LeTrans(m.min, a.min, x);
      LeTrans(x, a.max, m.max);
    }
    forall x | Contains(b, x) ensures Contains(m, x) {
      LeTrans(m.min, b.min, x);
      LeTrans(x, b.max, m.max);
    }
  }

  /** Merging is symmetric. */
  lemma {:induction false} MergeCommutes(a: Interval, b: Interval)
    ensures Merge(a, b) == Merge(b, a)
  {
    var m, n := Merge(a, b), Merge(b, a);
    LeAntisym(m.min, n.min);
    LeAntisym(m.max, n.max);
  }

  /** `max - min`, defined unless both ends are the same infinity (where
      Python would produce NaN). The size is non-negative exactly when
      `min <= max`. */
  function Size(i: Interval): (r: ExtReal)
    requires MinusDefined(i.max, i.min)
    ensures i.min.Fin? && i.max.Fin? ==> r == Fin(i.max.r - i.min.r)
    ensures Le(Fin(0.0), r) <==> Le(i.min, i.max)
  {
    Minus(i.max, i.min)
  }

  /** `clamp(x)`: `x` pulled into `[min, max]`. */
  function Clamp(i: Interval, x: ExtReal): (r: ExtReal)
    ensures Le(i.min, i.max) ==> Contains(i, r)
    ensures Contains(i, x) ==> r == x
    ensures Lt(x, i.min) ==> r == i.min
    ensures !Lt(x, i.min) && Lt(i.max, x) ==> r == i.max
  {
    if Lt(x, i.min) then i.min
    else if Lt(i.max, x) then i.max
    else x
  }

  /** Clamping twice is clamping once. */
  lemma {:induction false} ClampIdempotent(i: Interval, x: ExtReal)
    requires Le(i.min, i.max)
    ensures Clamp(i, Clamp(i, x)) == Clamp(i, x)
  {
    assert Contains(i, Clamp(i, x));
  }

  /** `expand(delta)`: both ends move outwards by `delta / 2`, so a finite
      interval grows by exactly `delta`. */
  function Expand(i: Interval, delta: real): (r: Interval)
    ensures r.min.Fin? == i.min.Fin? && r.max.Fin? == i.max.Fin?
    ensures i.min.Fin? ==> r.min == Fin(i.min.r - delta / 2.0)
    ensures i.max.Fin? ==> r.max == Fin(i.max.r + delta / 2.0)
    ensures !i.min.Fin? ==> r.min == i.min
    ensures !i.max.Fin? ==> r.max == i.max
    ensures i.min.Fin? && i.max.Fin? ==> Size(r) == Fin(i.max.r - i.min.r + delta)
    ensures i.min.Fin? && i.max.Fin? ==> r.min.r + r.max.r == i.min.r + i.max.r
  {
    var padding := delta / 2.0;
    Interval(Plus(i.min, -padding), Plus(i.max, padding))
  }

  /** Expanding by a non-negative amount loses no value. */
  lemma {:induction false} ExpandCovers(i: Interval, delta: real)
    requires 0.0 <= delta
    ensures Covers(Expand(i, delta), i)
  {
    var r := Expand(i, delta);
    forall x | Contains(i, x) ensures Contains(r, x) {
      LeTrans(r.min, i.min, x);
      LeTrans(x, i.max, r.max);
    }
  }

  /** A value strictly inside an interval is also inside it with the edges
      included. */
  lemma SurroundsContains(i: Interval, x: ExtReal)
    requires Surrounds(i, x)
    ensures Contains(i, x)
  {
  }

  /** `EMPTY` contains nothing, not even an infinity; `UNIVERSE` contains
      every value. */
  lemma EmptyAndUniverse(x: ExtReal)
    ensures !Contains(EMPTY, x) && !Surrounds(EMPTY, x)
    ensures Contains(UNIVERSE, x)
    ensures x.Fin? ==> Surrounds(UNIVERSE, x)
  {
  }

  /** A mutable interval. `aabb.hit` narrows the interval it is handed in
      place, and the caller goes on using the narrowed one. */
  class IntervalRef {
    var min: ExtReal
    var max: ExtReal

    constructor (i: Interval)
      ensures min == i.min && max == i.max
    {
      min := i.min;
      max := i.max;
    }

    function Value(): Interval
      reads this
    {
      Interval(min, max)
    }
  }
}
