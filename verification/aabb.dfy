/** Axis-aligned bounding boxes: one interval per axis, padded so that no
    axis is thinner than 0.0001, and the slab test that decides whether a
    ray passes through the box. */
module Aabbs {
  import opened Wrappers
  import opened ExtReals
  import opened MathLib
  import opened Vec
  import opened Rays
  import opened Intervals

  datatype Aabb = Aabb(x: Interval, y: Interval, z: Interval)

  /** The thinnest an axis may be after construction. */
  const Delta: real := 0.0001

  /** Component `n` of a vector, for `n` in 0..2. */
  function Coord(v: Vector3, n: nat): (r: real)
    requires n < 3
    ensures Get(v, n) == Ok(r)
  {
    if n == 0 then v.x else if n == 1 then v.y else v.z
  }

  function AxisOf(box: Aabb, n: nat): Interval
    requires n < 3
  {
    if n == 0 then box.x else if n == 1 then box.y else box.z
  }

  /** `axis_interval(n)`: axes 0, 1, 2 are x, y, z; any other index raises
      IndexError. */
  function AxisInterval(box: Aabb, n: int): (r: Result<Interval>)
    ensures r.Ok? <==> 0 <= n < 3
    ensures r.Ok? ==> r.value == [box.x, box.y, box.z][n]
    ensures r.Raise? ==> r.error == IndexError
  {
    if 0 <= n < 3 then Ok(AxisOf(box, n)) else Raise(IndexError)
  }

  /** `p` lies between the two ends of `i`, whichever of them is smaller. */
  predicate Between(i: Interval, p: real)
  {
    Contains(i, Fin(p)) || Contains(Interval(i.max, i.min), Fin(p))
  }

  /** `p` lies strictly between the two ends of `i`. */
  predicate StrictlyBetween(i: Interval, p: real)
  {
    Surrounds(i, Fin(p)) || Surrounds(Interval(i.max, i.min), Fin(p))
  }

  /** The point is in the box, each axis read as the range between its two
      ends. */
  predicate InBox(box: Aabb, p: Point3)
  {
    forall n :: 0 <= n < 3 ==> Between(AxisOf(box, n), Coord(p, n))
  }

  predicate StrictlyInBox(box: Aabb, p: Point3)
  {
    forall n :: 0 <= n < 3 ==> StrictlyBetween(AxisOf(box, n), Coord(p, n))
  }

  // ----- construction -----

  /** The box spanned by two corner points given in any order: each axis
      runs from the smaller to the larger coordinate. */
  function FromPoints(a: Point3, b: Point3): (r: Aabb)
    ensures forall n :: 0 <= n < 3 ==>
      && Le(AxisOf(r, n).min, AxisOf(r, n).max)
      && AxisOf(r, n).min in {Fin(Coord(a, n)), Fin(Coord(b, n))}
      && AxisOf(r, n).max in {Fin(Coord(a, n)), Fin(Coord(b, n))}
  {
    Aabb(if a.x <= b.x then Interval(Fin(a.x), Fin(b.x)) else Interval(Fin(b.x), Fin(a.x)),
         if a.y <= b.y then Interval(Fin(a.y), Fin(b.y)) else Interval(Fin(b.y), Fin(a.y)),
         if a.z <= b.z then Interval(Fin(a.z), Fin(b.z)) else Interval(Fin(b.z), Fin(a.z)))
  }

  /** The order of the two corners does not matter. */
  lemma {:induction false} FromPointsSymmetric(a: Point3, b: Point3)
    ensures FromPoints(a, b) == FromPoints(b, a)
    ensures InBox(FromPoints(a, b), a) && InBox(FromPoints(a, b), b)
  {
    var r := FromPoints(a, b);
    forall n | 0 <= n < 3
      ensures AxisOf(FromPoints(a, b), n) == AxisOf(FromPoints(b, a), n)
      ensures Between(AxisOf(r, n), Coord(a, n)) && Between(AxisOf(r, n), Coord(b, n))
    {
      if Coord(a, n) == Coord(b, n) {
        assert AxisOf(r, n) == Interval(Fin(Coord(a, n)), Fin(Coord(a, n)));
      }
    }
  }

  /** The box enclosing two boxes, axis by axis. */
  function FromBoxes(b0: Aabb, b1: Aabb): (r: Aabb)
    ensures forall n :: 0 <= n < 3 ==> AxisOf(r, n) == Merge(AxisOf(b0, n), AxisOf(b1, n))
  {
    Aabb(Merge(b0.x, b1.x), Merge(b0.y, b1.y), Merge(b0.z, b1.z))
  }

  /** `size() < delta`; when the size is NaN (both ends the same
      infinity) the comparison is false. */
  predicate SizeBelow(i: Interval, delta: real)
  {
    MinusDefined(i.max, i.min) && Lt(Size(i), Fin(delta))
  }

  /** One axis of `_pad_to_minimums`: an axis thinner than `Delta` is
      expanded by `Delta` about its centre. The result keeps every value of
      the axis, an axis that was wide enough is left alone, and a finite,
      ordered axis ends up at least `Delta` wide. */
  function PadAxis(i: Interval): (r: Interval)
    ensures Covers(r, i)
    ensures !SizeBelow(i, Delta) ==> r == i
    ensures i.min.Fin? && i.max.Fin? && Le(i.min, i.max) ==> !SizeBelow(r, Delta)
    ensures Le(i.min, i.max) ==> Le(r.min, r.max)
    ensures SizeBelow(i, Delta) && i.min.Fin? && i.max.Fin? ==>
      (r.min.Fin? && r.max.Fin? && r.max.r - r.min.r == i.max.r - i.min.r + Delta
       && r.min.r + r.max.r == i.min.r + i.max.r)
  {
    if SizeBelow(i, Delta) then
      ExpandCovers(i, Delta);
      Expand(i, Delta)
    else
      i
  }

  /** `_pad_to_minimums`, applied by every constructor. */
  function PadToMinimums(box: Aabb): (r: Aabb)
    ensures forall n :: 0 <= n < 3 ==> AxisOf(r, n) == PadAxis(AxisOf(box, n))
  {
    Aabb(PadAxis(box.x), PadAxis(box.y), PadAxis(box.z))
  }

  /** `AABB(x, y, z, a, b, box0, box1)`: three intervals take precedence
      over two points, which take precedence over two boxes; with none of
      these pairs complete the constructor raises RuntimeError. The chosen
      box is then padded. */
  function Construct(x: Option<Interval>, y: Option<Interval>, z: Option<Interval>,
                     a: Option<Point3>, b: Option<Point3>,
                     box0: Option<Aabb>, box1: Option<Aabb>): (r: Result<Aabb>)
    ensures r.Raise? <==> !(x.Some? && y.Some? && z.Some?) && !(a.Some? && b.Some?) && !(box0.Some? && box1.Some?)
    ensures r.Raise? ==> r.error == RuntimeError
    ensures x.Some? && y.Some? && z.Some? ==> r == Ok(PadToMinimums(Aabb(x.value, y.value, z.value)))
    ensures !(x.Some? && y.Some? && z.Some?) && a.Some? && b.Some? ==>
      r == Ok(PadToMinimums(FromPoints(a.value, b.value)))
    ensures !(x.Some? && y.Some? && z.Some?) && !(a.Some? && b.Some?) && box0.Some? && box1.Some? ==>
      r == Ok(PadToMinimums(FromBoxes(box0.value, box1.value)))
  {
    if x.Some? && y.Some? && z.Some? then Ok(PadToMinimums(Aabb(x.value, y.value, z.value)))
    else if a.Some? && b.Some? then Ok(PadToMinimums(FromPoints(a.value, b.value)))
    else if box0.Some? && box1.Some? then Ok(PadToMinimums(FromBoxes(box0.value, box1.value)))
    else Raise(RuntimeError)
  }

  /** A box built from two points contains both, each axis is ordered and
      at least `Delta` wide. */
  lemma {:induction false} PointsBoxContainsPoints(a: Point3, b: Point3)
    ensures Construct(None, None, None, Some(a), Some(b), None, None).Ok?
    ensures var r := Construct(None, None, None, Some(a), Some(b), None, None).value;
      && InBox(r, a) && InBox(r, b)
      && forall n :: 0 <= n < 3 ==> Le(AxisOf(r, n).min, AxisOf(r, n).max) && !SizeBelow(AxisOf(r, n), Delta)
  {
    var f := FromPoints(a, b);
    var r := PadToMinimums(f);
    FromPointsSymmetric(a, b);
    forall n | 0 <= n < 3
      ensures Between(AxisOf(r, n), Coord(a, n)) && Between(AxisOf(r, n), Coord(b, n))
    {
      assert Contains(AxisOf(f, n), Fin(Coord(a, n)));
      assert Contains(AxisOf(f, n), Fin(Coord(b, n)));
    }
  }

  /** A box built from two points contains every point whose coordinates
      each lie between the two corners' coordinates. */
  lemma {:induction false} PointsBoxContains(a: Point3, b: Point3, p: Point3)
    requires forall n :: 0 <= n < 3 ==>
      (Coord(a, n) <= Coord(p, n) <= Coord(b, n)) || (Coord(b, n) <= Coord(p, n) <= Coord(a, n))
    ensures Construct(None, None, None, Some(a), Some(b), None, None).Ok?
    ensures InBox(Construct(None, None, None, Some(a), Some(b), None, None).value, p)
  {
    var f := FromPoints(a, b);
    var r := PadToMinimums(f);
    forall n | 0 <= n < 3 ensures Between(AxisOf(r, n), Coord(p, n)) {
      PointsAxis(a, b, n);
      assert Contains(AxisOf(f, n), Fin(Coord(p, n)));
      assert AxisOf(r, n) == PadAxis(AxisOf(f, n));
      assert Contains(AxisOf(r, n), Fin(Coord(p, n)));
    }
  }

  lemma PointsAxis(a: Point3, b: Point3, n: nat)
    requires n < 3
    ensures AxisOf(FromPoints(a, b), n) ==
      if Coord(a, n) <= Coord(b, n) then Interval(Fin(Coord(a, n)), Fin(Coord(b, n)))
      else Interval(Fin(Coord(b, n)), Fin(Coord(a, n)))
  {
  }

  /** A box built from two boxes contains every point either box contains,
      when their axes are ordered. */
  lemma {:induction false} BoxesBoxContainsBoxes(b0: Aabb, b1: Aabb, p: Point3)
    requires forall n :: 0 <= n < 3 ==> Le(AxisOf(b0, n).min, AxisOf(b0, n).max) && Le(AxisOf(b1, n).min, AxisOf(b1, n).max)
    requires InBox(b0, p) || InBox(b1, p)
    ensures InBox(Construct(None, None, None, None, None, Some(b0), Some(b1)).value, p)
  {
    var f := FromBoxes(b0, b1);
    var r := PadToMinimums(f);
    forall n | 0 <= n < 3 ensures Between(AxisOf(r, n), Coord(p, n)) {
      var i0, i1 := AxisOf(b0, n), AxisOf(b1, n);
      MergeCovers(i0, i1);
      if InBox(b0, p) {
        assert Between(i0, Coord(p, n));
        if !Contains(i0, Fin(Coord(p, n))) { LeTrans(i0.max, Fin(Coord(p, n)), i0.min); }
        assert Contains(AxisOf(f, n), Fin(Coord(p, n)));
      } else {
        assert Between(i1, Coord(p, n));
        if !Contains(i1, Fin(Coord(p, n))) { LeTrans(i1.max, Fin(Coord(p, n)), i1.min); }
        assert Contains(AxisOf(f, n), Fin(Coord(p, n)));
      }
    }
  }

  // ----- longest axis -----

  /** `x.size() > y.size()`, false when either size is NaN. */
  predicate Wider(i: Interval, j: Interval)
  {
    MinusDefined(i.max, i.min) && MinusDefined(j.max, j.min) && Lt(Size(j), Size(i))
  }

  /** `longest_axis()`. */
  function LongestAxis(box: Aabb): (r: nat)
    ensures r < 3
  {
    if Wider(box.x, box.y) then
      if Wider(box.x, box.z) then 0 else 2
    else
      if Wider(box.y, box.z) then 1 else 2
  }

  /** With every size a number, `longest_axis()` is the last axis of the
      greatest size: no axis is wider, and no later axis is as wide. */
  lemma {:induction false} LongestAxisIsLongest(box: Aabb)
    requires forall n :: 0 <= n < 3 ==> MinusDefined(AxisOf(box, n).max, AxisOf(box, n).min)
    ensures var r := LongestAxis(box);
      forall n :: 0 <= n < 3 ==>
        && Le(Size(AxisOf(box, n)), Size(AxisOf(box, r)))
        && (r < n ==> Lt(Size(AxisOf(box, n)), Size(AxisOf(box, r))))
  {
    assert MinusDefined(box.x.max, box.x.min) && MinusDefined(box.y.max, box.y.min) && MinusDefined(box.z.max, box.z.min) by {
      assert AxisOf(box, 0) == box.x && AxisOf(box, 1) == box.y && AxisOf(box, 2) == box.z;
    }
    var sx, sy, sz := Size(box.x), Size(box.y), Size(box.z);
    LeTotal(sx, sy); LeTotal(sx, sz); LeTotal(sy, sz);
    if Le(sx, sy) && Le(sy, sz) { LeTrans(sx, sy, sz); }
    if Le(sy, sx) && Le(sx, sz) { LeTrans(sy, sx, sz); }
    if Le(sz, sx) && Le(sx, sy) { LeTrans(sz, sx, sy); }
    if Le(sx, sz) && Le(sz, sy) { LeTrans(sx, sz, sy); }
  }

  // ----- slab test -----

  /** The ray parameter at which `o + d * s` reaches the plane at `e`,
      computed as `(e - o) * (1 / d)`. */
  function Crossing(e: ExtReal, o: real, d: real): ExtReal
    requires d != 0.0
  {
    Times(Plus(e, -o), 1.0 / d)
  }

  lemma MulLe(a: real, b: real, d: real)
    requires a <= b && d > 0.0
    ensures a * d <= b * d
    ensures a < b ==> a * d < b * d
  {
    if a < b {
      MulPos(b - a, d);
      assert b * d - a * d == Prod(b - a, d);
    }
  }

  lemma DivCompare(m: real, o: real, d: real, s: real)
    requires d != 0.0
    ensures d > 0.0 ==> ((m - o) * (1.0 / d) <= s <==> m <= o + d * s)
    ensures d < 0.0 ==> ((m - o) * (1.0 / d) <= s <==> o + d * s <= m)
    ensures (m - o) * (1.0 / d) == s <==> m == o + d * s
  {
    var q := (m - o) * (1.0 / d);
    assert q * d == m - o;
    if d > 0.0 {
      if q <= s { MulLe(q, s, d); }
      if m <= o + d * s { if s < q { MulLe(s, q, d); } }
    } else {
      if q <= s { MulLe(q, s, -d); }
      if o + d * s <= m { if s < q { MulLe(s, q, -d); } }
    }
  }

  /** Comparing a crossing with `s` is comparing the plane with the point
      the ray reaches at `s`; a negative direction reverses the order. */
  lemma {:induction false} CrossingCompare(e: ExtReal, o: real, d: real, s: real)
    requires d != 0.0
    ensures Crossing(e, o, d) == Fin(s) <==> e == Fin(o + d * s)
    ensures d > 0.0 ==> (Le(Crossing(e, o, d), Fin(s)) <==> Le(e, Fin(o + d * s)))
    ensures d > 0.0 ==> (Le(Fin(s), Crossing(e, o, d)) <==> Le(Fin(o + d * s), e))
    ensures d < 0.0 ==> (Le(Crossing(e, o, d), Fin(s)) <==> Le(Fin(o + d * s), e))
    ensures d < 0.0 ==> (Le(Fin(s), Crossing(e, o, d)) <==> Le(e, Fin(o + d * s)))
  {
    if e.Fin? {
      DivCompare(e.r, o, d, s);
    }
  }

  /** The parameters for which the ray is within one axis of the box: from
      the nearer crossing to the farther one. */
  function Slab(ax: Interval, o: real, d: real): Interval
    requires d != 0.0
  {
    var t0, t1 := Crossing(ax.min, o, d), Crossing(ax.max, o, d);
    if Lt(t0, t1) then Interval(t0, t1) else Interval(t1, t0)
  }

  /** The slab holds exactly the parameters at which the ray lies between
      the two planes of the axis, and its inside the parameters at which
      the ray lies strictly between them. */
  lemma {:induction false} SlabExact(ax: Interval, o: real, d: real, s: real)
    requires d != 0.0
    ensures Contains(Slab(ax, o, d), Fin(s)) <==> Between(ax, o + d * s)
    ensures Surrounds(Slab(ax, o, d), Fin(s)) <==> StrictlyBetween(ax, o + d * s)
  {
    var t0, t1 := Crossing(ax.min, o, d), Crossing(ax.max, o, d);
    var p := Fin(o + d * s);
    CrossingCompare(ax.min, o, d, s);
    CrossingCompare(ax.max, o, d, s);
    LeTotal(t0, t1);
    LeTotal(ax.min, ax.max);
    if Le(t0, Fin(s)) && Le(Fin(s), t1) && Le(t1, t0) { LeAntisym(t0, t1); }
    if Le(t1, Fin(s)) && Le(Fin(s), t0) && Le(t0, t1) { LeTrans(t1, Fin(s), t0); LeAntisym(t0, t1); }
    if Le(ax.min, p) && Le(p, ax.max) && Le(ax.max, ax.min) { LeTrans(ax.max, ax.min, p); }
    if Le(ax.max, p) && Le(p, ax.min) && Le(ax.min, ax.max) { LeTrans(ax.min, ax.max, p); }
  }

  /** `if t0 > ray_t.min: ray_t.min = t0` */
  function Larger(a: ExtReal, b: ExtReal): ExtReal
  {
    if Lt(a, b) then b else a
  }

  /** `if t1 < ray_t.max: ray_t.max = t1` */
  function Smaller(a: ExtReal, b: ExtReal): ExtReal
  {
    if Lt(b, a) then b else a
  }

  /** One axis of `hit`: the interval cut down to the slab, which is the
      part the two have in common. */
  function Narrow(t: Interval, slab: Interval): (r: Interval)
    ensures Le(t.min, r.min) && Le(r.max, t.max)
    ensures Le(slab.min, r.min) && Le(r.max, slab.max)
    ensures forall x :: Contains(r, x) <==> Contains(t, x) && Contains(slab, x)
    ensures forall x :: Surrounds(r, x) <==> Surrounds(t, x) && Surrounds(slab, x)
  {
    LeTotal(t.min, slab.min);
    LeTotal(t.max, slab.max);
    var r := Interval(Larger(t.min, slab.min), Smaller(t.max, slab.max));
    assert forall x :: Le(r.min, x) ==> Le(t.min, x) && Le(slab.min, x) by {
      forall x | Le(r.min, x) ensures Le(t.min, x) && Le(slab.min, x) {
        LeTrans(t.min, r.min, x);
        LeTrans(slab.min, r.min, x);
      }
    }
    assert forall x :: Le(x, r.max) ==> Le(x, t.max) && Le(x, slab.max) by {
      forall x | Le(x, r.max) ensures Le(x, t.max) && Le(x, slab.max) {
        LeTrans(x, r.max, t.max);
        LeTrans(x, r.max, slab.max);
      }
    }
    r
  }

  /** `hit(ray, ray_t)` from axis `n` on: the answer, and the interval the
      caller is left holding. A zero direction component raises
      ZeroDivisionError when its axis is reached. */
  function HitFrom(box: Aabb, ray: Ray, t: Interval, n: nat): (Result<bool>, Interval)
    requires n <= 3
    decreases 3 - n
  {
    if n == 3 then (Ok(true), t)
    else if Coord(ray.dir, n) == 0.0 then (Raise(ZeroDivisionError), t)
    else
      var t' := Narrow(t, Slab(AxisOf(box, n), Coord(ray.orig, n), Coord(ray.dir, n)));
      if Le(t'.max, t'.min) then (Ok(false), t') else HitFrom(box, ray, t', n + 1)
  }

  /** `hit`, which narrows the caller's interval in place axis by axis and
      gives up as soon as it is empty. */
  method Hit(box: Aabb, ray: Ray, rayT: IntervalRef) returns (r: Result<bool>)
    modifies rayT
    ensures (r, rayT.Value()) == HitFrom(box, ray, old(rayT.Value()), 0)
  {
    var axis := 0;
    while axis < 3
      invariant 0 <= axis <= 3
      invariant HitFrom(box, ray, old(rayT.Value()), 0) == HitFrom(box, ray, rayT.Value(), axis)
    {
      var ax := AxisOf(box, axis);
      var d := Coord(ray.dir, axis);
      if d == 0.0 {
        return Raise(ZeroDivisionError);
      }
      var adinv := 1.0 / d;
      var t0 := Times(Plus(ax.min, -Coord(ray.orig, axis)), adinv);
      var t1 := Times(Plus(ax.max, -Coord(ray.orig, axis)), adinv);
      if Lt(t0, t1) {
        if Lt(rayT.min, t0) { rayT.min := t0; }
        if Lt(t1, rayT.max) { rayT.max := t1; }
      } else {
        if Lt(rayT.min, t1) { rayT.min := t1; }
        if Lt(t0, rayT.max) { rayT.max := t0; }
      }
      if Le(rayT.max, rayT.min) {
        return Ok(false);
      }
      axis := axis + 1;
    }
    return Ok(true);
  }

  /** `hit` never widens the interval it is given. */
  lemma {:induction false} HitNarrows(box: Aabb, ray: Ray, t: Interval, n: nat)
    requires n <= 3
    ensures Le(t.min, HitFrom(box, ray, t, n).1.min) && Le(HitFrom(box, ray, t, n).1.max, t.max)
    decreases 3 - n
  {
    if n < 3 && Coord(ray.dir, n) != 0.0 {
      var t' := Narrow(t, Slab(AxisOf(box, n), Coord(ray.orig, n), Coord(ray.dir, n)));
      if !Le(t'.max, t'.min) {
        HitNarrows(box, ray, t', n + 1);
        LeTrans(t.min, t'.min, HitFrom(box, ray, t', n + 1).1.min);
        LeTrans(HitFrom(box, ray, t', n + 1).1.max, t'.max, t.max);
      }
    }
  }

  /** The only exception `hit` raises is ZeroDivisionError, for a zero
      direction component; a ray with none never raises. */
  lemma {:induction false} HitRaisesOnZeroDirection(box: Aabb, ray: Ray, t: Interval, n: nat)
    requires n <= 3
    ensures HitFrom(box, ray, t, n).0.Raise? ==>
      HitFrom(box, ray, t, n).0.error == ZeroDivisionError && exists k :: n <= k < 3 && Coord(ray.dir, k) == 0.0
    ensures (forall k :: n <= k < 3 ==> Coord(ray.dir, k) != 0.0) ==> HitFrom(box, ray, t, n).0.Ok?
    decreases 3 - n
  {
    if n < 3 && Coord(ray.dir, n) != 0.0 {
      var t' := Narrow(t, Slab(AxisOf(box, n), Coord(ray.orig, n), Coord(ray.dir, n)));
      HitRaisesOnZeroDirection(box, ray, t', n + 1);
    }
  }

  /** The slab of axis `n` holds the parameters at which the ray lies
      between the planes of that axis. */
  lemma {:induction false} SlabOfAxis(box: Aabb, ray: Ray, n: nat, s: real)
    requires n < 3 && Coord(ray.dir, n) != 0.0
    ensures Contains(Slab(AxisOf(box, n), Coord(ray.orig, n), Coord(ray.dir, n)), Fin(s))
      <==> Between(AxisOf(box, n), Coord(At(ray, s), n))
    ensures Surrounds(Slab(AxisOf(box, n), Coord(ray.orig, n), Coord(ray.dir, n)), Fin(s))
      <==> StrictlyBetween(AxisOf(box, n), Coord(At(ray, s), n))
  {
    var o, d := Coord(ray.orig, n), Coord(ray.dir, n);
    assert Coord(At(ray, s), n) == o + d * s;
    SlabExact(AxisOf(box, n), o, d, s);
  }

  /** When `hit` answers True, what is left of the interval lies in every
      slab from axis `n` on and is not empty. */
  lemma {:induction false} HitTrueInSlabs(box: Aabb, ray: Ray, t: Interval, n: nat)
    requires n <= 3
    requires n == 3 ==> Lt(t.min, t.max)
    requires HitFrom(box, ray, t, n).0 == Ok(true)
    ensures Lt(HitFrom(box, ray, t, n).1.min, HitFrom(box, ray, t, n).1.max)
    ensures forall k :: n <= k < 3 ==> Coord(ray.dir, k) != 0.0
    ensures forall k, x :: n <= k < 3 && Contains(HitFrom(box, ray, t, n).1, x) ==>
      Contains(Slab(AxisOf(box, k), Coord(ray.orig, k), Coord(ray.dir, k)), x)
    decreases 3 - n
  {
    if n < 3 {
      var slab := Slab(AxisOf(box, n), Coord(ray.orig, n), Coord(ray.dir, n));
      var t' := Narrow(t, slab);
      LeTotal(t'.min, t'.max);
      HitTrueInSlabs(box, ray, t', n + 1);
      var u := HitFrom(box, ray, t', n + 1).1;
      HitNarrows(box, ray, t', n + 1);
      forall x | Contains(u, x) ensures Contains(t', x) {
        LeTrans(t'.min, u.min, x);
        LeTrans(x, u.max, t'.max);
      }
    }
  }

  /** Soundness: when `hit` answers True, the ray is inside the box at
      every parameter left in the interval (the box read axis by axis as
      the range between the two ends), and that interval is not empty. */
  lemma {:induction false} HitSound(box: Aabb, ray: Ray, t: Interval, s: real)
    requires HitFrom(box, ray, t, 0).0 == Ok(true)
    requires Contains(HitFrom(box, ray, t, 0).1, Fin(s))
    ensures InBox(box, At(ray, s))
    ensures Lt(HitFrom(box, ray, t, 0).1.min, HitFrom(box, ray, t, 0).1.max)
  {
    HitTrueInSlabs(box, ray, t, 0);
    forall k | 0 <= k < 3 ensures Between(AxisOf(box, k), Coord(At(ray, s), k)) {
      SlabOfAxis(box, ray, k, s);
    }
  }

  /** Completeness: if, at some parameter strictly inside the interval,
      the ray is strictly inside the box, `hit` answers True (given that no
      direction component is zero, so that nothing is raised). */
  lemma {:induction false} HitComplete(box: Aabb, ray: Ray, t: Interval, s: real, n: nat)
    requires n <= 3
    requires forall k :: n <= k < 3 ==> Coord(ray.dir, k) != 0.0
    requires Surrounds(t, Fin(s))
    requires StrictlyInBox(box, At(ray, s))
    ensures HitFrom(box, ray, t, n).0 == Ok(true)
    ensures Surrounds(HitFrom(box, ray, t, n).1, Fin(s))
    decreases 3 - n
  {
    if n < 3 {
      var slab := Slab(AxisOf(box, n), Coord(ray.orig, n), Coord(ray.dir, n));
      SlabOfAxis(box, ray, n, s);
      var t' := Narrow(t, slab);
      assert Surrounds(t', Fin(s));
      if Le(t'.max, t'.min) {
        LeTrans(t'.max, t'.min, Fin(s));
        assert false;
      }
      HitComplete(box, ray, t', s, n + 1);
    }
  }
}
