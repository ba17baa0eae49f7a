/** `World`: a list of hittable objects queried one after the other, each
    over the interval from the caller's minimum to the nearest hit so far.
    Objects are known here only by their `hit` and `bounding_box`. */
module Worlds {
  import opened Wrappers
  import opened ExtReals
  import opened Vec
  import opened Rays
  import opened Intervals
  import opened Aabbs
  import opened Hittables

  /** A hittable object: what `hit(ray, interval)` returns, together with
      the interval object as the call leaves it (a BVH node narrows it in
      place), and what `bounding_box()` returns (`None` for a world that
      has no box yet). */
  datatype Object<M> = Object(hit: (Ray, Interval) -> (Result<Option<HitInfo<M>>>, Interval),
                              box: Option<Aabb>)

  /** An object that reports hits only inside the interval it was asked
      about, as spheres, quads and worlds do. */
  ghost predicate Honest<M>(o: Object<M>)
  {
    forall ray, i :: o.hit(ray, i).0.Ok? && o.hit(ray, i).0.value.Some? ==>
      Contains(i, Fin(o.hit(ray, i).0.value.value.t))
  }

  // ----- bounding box -----

  /** Every value of each axis of `inner` is a value of the same axis of
      `outer`. */
  ghost predicate BoxCovers(outer: Aabb, inner: Aabb)
  {
    forall n :: 0 <= n < 3 ==> Covers(AxisOf(outer, n), AxisOf(inner, n))
  }

  lemma {:induction false} BoxCoversTrans(a: Aabb, b: Aabb, c: Aabb)
    requires BoxCovers(a, b) && BoxCovers(b, c)
    ensures BoxCovers(a, c)
  {
    forall n | 0 <= n < 3 ensures Covers(AxisOf(a, n), AxisOf(c, n)) {
      assert Covers(AxisOf(a, n), AxisOf(b, n));
      assert Covers(AxisOf(b, n), AxisOf(c, n));
    }
  }

  /** The box `add` leaves behind: the new object's box when there was
      none yet, else both merged; merging with an object that has no box
      raises RuntimeError in the `AABB` constructor. */
  function AddBox(bbox: Option<Aabb>, objBox: Option<Aabb>): (r: Result<Option<Aabb>>)
    ensures r.Raise? <==> bbox.Some? && objBox.None?
    ensures r.Raise? ==> r.error == RuntimeError
  {
    if bbox.None? then Ok(objBox)
    else if objBox.None? then Raise(RuntimeError)
    else Ok(Some(Construct(None, None, None, None, None, Some(bbox.value), Some(objBox.value)).value))
  }

  /** The merged box covers the old box and the new object's box. */
  lemma {:induction false} AddBoxCovers(bbox: Option<Aabb>, objBox: Option<Aabb>)
    requires AddBox(bbox, objBox).Ok?
    ensures var r := AddBox(bbox, objBox).value;
      && (objBox.Some? ==> r.Some? && BoxCovers(r.value, objBox.value))
      && (bbox.Some? ==> r.Some? && BoxCovers(r.value, bbox.value))
      && (bbox.None? ==> r == objBox)
  {
    if bbox.Some? {
      var b0, b1 := bbox.value, objBox.value;
      var f := FromBoxes(b0, b1);
      var r := PadToMinimums(f);
      forall n | 0 <= n < 3
        ensures Covers(AxisOf(r, n), AxisOf(b0, n)) && Covers(AxisOf(r, n), AxisOf(b1, n))
      {
        var m := Merge(AxisOf(b0, n), AxisOf(b1, n));
        MergeCovers(AxisOf(b0, n), AxisOf(b1, n));
        assert AxisOf(f, n) == m;
        assert AxisOf(r, n) == PadAxis(m);
        CoversTrans(PadAxis(m), m, AxisOf(b0, n));
        CoversTrans(PadAxis(m), m, AxisOf(b1, n));
      }
    }
  }

  lemma CoversTrans(a: Interval, b: Interval, c: Interval)
    requires Covers(a, b) && Covers(b, c)
    ensures Covers(a, c)
  {
  }

  /** The world's box covers the box of every object that has one. */
  ghost predicate BoxesCovered<M>(bbox: Option<Aabb>, objects: seq<Object<M>>)
  {
    forall i :: 0 <= i < |objects| && objects[i].box.Some? ==>
      bbox.Some? && BoxCovers(bbox.value, objects[i].box.value)
  }

  /** `add` keeps every earlier object covered and covers the new one. */
  lemma {:induction false} AddKeepsCovered<M>(bbox: Option<Aabb>, objects: seq<Object<M>>, obj: Object<M>)
    requires BoxesCovered(bbox, objects)
    ensures var r := AddBox(bbox, obj.box);
      BoxesCovered(if r.Ok? then r.value else bbox, objects + [obj])
  {
    var r := AddBox(bbox, obj.box);
    var objs := objects + [obj];
    if r.Ok? {
      AddBoxCovers(bbox, obj.box);
      var b := r.value;
      forall i | 0 <= i < |objs| && objs[i].box.Some?
        ensures b.Some? && BoxCovers(b.value, objs[i].box.value)
      {
        if i < |objects| {
          assert objects[i] == objs[i];
          BoxCoversTrans(b.value, bbox.value, objs[i].box.value);
        }
      }
    }
  }

  // ----- hit -----

  /** One query of the loop: the interval asked about and the answer. */
  datatype Query<M> = Query(window: Interval, answer: Result<Option<HitInfo<M>>>)

  /** The upper bound of the next query: the t of this query's hit, or
      this query's own bound when it missed. */
  function Next<M>(q: Query<M>): ExtReal
  {
    match q.answer
    case Ok(Some(h)) => Fin(h.t)
    case _ => q.window.max
  }

  /** The queries the loop makes, in order: object `k` is asked about
      `(min, bound)`, where the bound starts at `closest` and follows
      `Next`; an exception ends the loop. */
  function Trace<M>(objs: seq<Object<M>>, ray: Ray, min: ExtReal, closest: ExtReal): seq<Query<M>>
    decreases |objs|
  {
    if objs == [] then []
    else
      var q := Query(Interval(min, closest), objs[0].hit(ray, Interval(min, closest)).0);
      if q.answer.Raise? then [q] else [q] + Trace(objs[1..], ray, min, Next(q))
  }

  /** Every query asks about `(min, bound)`, the first bound is `closest`
      and each later bound is `Next` of the query before, which did not
      raise. */
  ghost predicate Linked<M>(tr: seq<Query<M>>, min: ExtReal, closest: ExtReal)
  {
    && (|tr| > 0 ==> tr[0].window.max == closest)
    && (forall k :: 0 <= k < |tr| ==> tr[k].window.min == min)
    && (forall k :: 0 <= k < |tr| - 1 ==> tr[k].answer.Ok? && tr[k + 1].window.max == Next(tr[k]))
  }

  /** Query `k` holds what object `k` answered when asked about its
      window. */
  ghost predicate Answers<M>(tr: seq<Query<M>>, objs: seq<Object<M>>, ray: Ray)
  {
    |tr| <= |objs| && forall k :: 0 <= k < |tr| ==> tr[k].answer == objs[k].hit(ray, tr[k].window).0
  }

  /** The loop of `hit`, from object `objs[0]` on, with `closest` the
      current bound and `acc` the record kept so far. */
  function HitFrom<M>(objs: seq<Object<M>>, ray: Ray, min: ExtReal, closest: ExtReal,
                      acc: Option<HitInfo<M>>): Result<Option<HitInfo<M>>>
    decreases |objs|
  {
    if objs == [] then Ok(acc)
    else
      match objs[0].hit(ray, Interval(min, closest)).0
      case Raise(e) => Raise(e)
      case Ok(None) => HitFrom(objs[1..], ray, min, closest, acc)
      case Ok(Some(h)) => HitFrom(objs[1..], ray, min, Fin(h.t), Some(h))
  }

  /** `World.hit(ray, interval)`: `(False, None)`, `(True, rec)` or the
      exception an object raised. */
  function WorldHit<M>(objs: seq<Object<M>>, ray: Ray, interval: Interval): Result<Option<HitInfo<M>>>
  {
    HitFrom(objs, ray, interval.min, interval.max, None)
  }

  ghost predicate NoRaise<M>(tr: seq<Query<M>>)
  {
    forall k :: 0 <= k < |tr| ==> tr[k].answer.Ok?
  }

  /** No query from index `from` on hit anything. */
  ghost predicate Silent<M>(tr: seq<Query<M>>, from: int)
  {
    forall k :: 0 <= from <= k < |tr| ==> tr[k].answer == Ok(None)
  }

  /** Query `k` reported `h` and no later query hit. */
  ghost predicate LastReport<M>(tr: seq<Query<M>>, k: int, h: HitInfo<M>)
  {
    0 <= k < |tr| && tr[k].answer == Ok(Some(h)) && Silent(tr, k + 1)
  }

  /** The trace is the loop's log: linked bounds, the objects' own
      answers, one query per object unless one raised, which is last. */
  lemma {:induction false} TraceShape<M>(objs: seq<Object<M>>, ray: Ray, min: ExtReal, closest: ExtReal)
    ensures var tr := Trace(objs, ray, min, closest);
      && Linked(tr, min, closest)
      && Answers(tr, objs, ray)
      && (|objs| > 0 ==> |tr| > 0)
      && (|tr| < |objs| ==> tr[|tr| - 1].answer.Raise?)
    decreases |objs|
  {
    if objs != [] {
      var q := Query(Interval(min, closest), objs[0].hit(ray, Interval(min, closest)).0);
      if q.answer.Ok? {
        var tr := Trace(objs, ray, min, closest);
        var rest := Trace(objs[1..], ray, min, Next(q));
        TraceShape(objs[1..], ray, min, Next(q));
        assert tr == [q] + rest;
        forall k | 1 <= k < |tr|
          ensures tr[k] == rest[k - 1] && objs[k] == objs[1..][k - 1]
        {
        }
      }
    }
  }

  /** One step of the loop: a query that did not raise is followed by
      the queries of the rest of the list under the new bound. */
  lemma TraceStep<M>(objs: seq<Object<M>>, ray: Ray, min: ExtReal, closest: ExtReal, acc: Option<HitInfo<M>>)
    requires objs != [] && objs[0].hit(ray, Interval(min, closest)).0.Ok?
    ensures var q := Query(Interval(min, closest), objs[0].hit(ray, Interval(min, closest)).0);
      var acc' := if q.answer.value.Some? then q.answer.value else acc;
      && Trace(objs, ray, min, closest) == [q] + Trace(objs[1..], ray, min, Next(q))
      && HitFrom(objs, ray, min, closest, acc) == HitFrom(objs[1..], ray, min, Next(q), acc')
  {
  }

  /** The loop raises exactly when its last query raised, with that
      exception; otherwise every object was asked. */
  lemma {:induction false} HitFromRaises<M>(objs: seq<Object<M>>, ray: Ray, min: ExtReal, closest: ExtReal,
                                            acc: Option<HitInfo<M>>)
    ensures var tr, r := Trace(objs, ray, min, closest), HitFrom(objs, ray, min, closest, acc);
      && (r.Raise? ==> |tr| > 0 && tr[|tr| - 1].answer == r)
      && (r.Ok? ==> NoRaise(tr) && |tr| == |objs|)
    decreases |objs|
  {
    if objs != [] && objs[0].hit(ray, Interval(min, closest)).0.Ok? {
      var q := Query(Interval(min, closest), objs[0].hit(ray, Interval(min, closest)).0);
      var acc' := if q.answer.value.Some? then q.answer.value else acc;
      TraceStep(objs, ray, min, closest, acc);
      HitFromRaises(objs[1..], ray, min, Next(q), acc');
    }
  }

  /** Without an exception, the loop's record is the answer of the last
      query that hit, or `acc` if none did. */
  lemma {:induction false} HitFromRecord<M>(objs: seq<Object<M>>, ray: Ray, min: ExtReal, closest: ExtReal,
                                            acc: Option<HitInfo<M>>)
    requires HitFrom(objs, ray, min, closest, acc).Ok?
    ensures var tr, r := Trace(objs, ray, min, closest), HitFrom(objs, ray, min, closest, acc);
      && (Silent(tr, 0) ==> r.value == acc)
      && (!Silent(tr, 0) ==> r.value.Some? && exists k :: LastReport(tr, k, r.value.value))
    decreases |objs|
  {
    if objs != [] {
      var q := Query(Interval(min, closest), objs[0].hit(ray, Interval(min, closest)).0);
      var acc' := if q.answer.value.Some? then q.answer.value else acc;
      TraceStep(objs, ray, min, closest, acc);
      HitFromRecord(objs[1..], ray, min, Next(q), acc');
      var tr := Trace(objs, ray, min, closest);
      var rest := Trace(objs[1..], ray, min, Next(q));
      var r := HitFrom(objs, ray, min, closest, acc);
      SilentCons(q, rest);
      if !Silent(tr, 0) {
        if Silent(rest, 0) {
          assert LastReport(tr, 0, r.value.value);
        } else {
          var k :| LastReport(rest, k, r.value.value);
          assert LastReport(tr, k + 1, r.value.value);
        }
      }
    }
  }

  /** A trace is silent exactly when its first query missed and the rest
      is silent. */
  lemma SilentCons<M>(q: Query<M>, rest: seq<Query<M>>)
    ensures Silent([q] + rest, 0) <==> q.answer == Ok(None) && Silent(rest, 0)
  {
    var tr := [q] + rest;
    if q.answer == Ok(None) && Silent(rest, 0) {
      forall k | 0 <= k < |tr| ensures tr[k].answer == Ok(None) {
        if k > 0 { assert tr[k] == rest[k - 1]; }
      }
    }
    if Silent(tr, 0) {
      assert tr[0] == q;
      forall k | 0 <= k < |rest| ensures rest[k].answer == Ok(None) {
        assert rest[k] == tr[k + 1];
      }
    }
  }

  /** `hit` on an empty world returns `(False, None)`; otherwise it
      reports a hit exactly when some query hit, and then the last one. */
  lemma {:induction false} WorldHitOutcome<M>(objs: seq<Object<M>>, ray: Ray, interval: Interval)
    ensures objs == [] ==> WorldHit(objs, ray, interval) == Ok(None)
    ensures var tr, r := Trace(objs, ray, interval.min, interval.max), WorldHit(objs, ray, interval);
      && (r.Raise? <==> !NoRaise(tr))
      && (r == Ok(None) <==> NoRaise(tr) && Silent(tr, 0))
      && (r.Ok? && r.value.Some? ==> exists k :: LastReport(tr, k, r.value.value))
  {
    HitFromRaises(objs, ray, interval.min, interval.max, None);
    if WorldHit(objs, ray, interval).Ok? {
      HitFromRecord(objs, ray, interval.min, interval.max, None);
    }
  }

  /** Honest answers keep each query's bound at or below the one before:
      the bound at query `j` is at most the bound at any earlier query. */
  lemma {:induction false} BoundsShrink<M>(tr: seq<Query<M>>, k: nat, j: nat)
    requires forall i :: 0 <= i < |tr| - 1 ==> tr[i].answer.Ok? && tr[i + 1].window.max == Next(tr[i])
    requires forall i :: 0 <= i < |tr| && tr[i].answer.Ok? && tr[i].answer.value.Some? ==>
      Contains(tr[i].window, Fin(tr[i].answer.value.value.t))
    requires k <= j < |tr|
    ensures Le(tr[j].window.max, tr[k].window.max)
    decreases j - k
  {
    if k == j {
      LeTotal(tr[j].window.max, tr[k].window.max);
    } else {
      BoundsShrink(tr, k + 1, j);
      assert Le(Next(tr[k]), tr[k].window.max);
      LeTrans(tr[j].window.max, tr[k + 1].window.max, tr[k].window.max);
    }
  }

  /** With honest objects the record `hit` returns lies in the caller's
      interval and is the nearest of all hits reported along the way: its
      t is at most every reported t. */
  lemma {:induction false} WorldHitNearest<M>(objs: seq<Object<M>>, ray: Ray, interval: Interval)
    requires forall i :: 0 <= i < |objs| ==> Honest(objs[i])
    requires WorldHit(objs, ray, interval).Ok? && WorldHit(objs, ray, interval).value.Some?
    ensures var tr, h := Trace(objs, ray, interval.min, interval.max), WorldHit(objs, ray, interval).value.value;
      && Contains(interval, Fin(h.t))
      && forall k :: 0 <= k < |tr| && tr[k].answer.Ok? && tr[k].answer.value.Some? ==>
           h.t <= tr[k].answer.value.value.t
  {
    var tr := Trace(objs, ray, interval.min, interval.max);
    var h := WorldHit(objs, ray, interval).value.value;
    WorldHitOutcome(objs, ray, interval);
    TraceShape(objs, ray, interval.min, interval.max);
    var last :| LastReport(tr, last, h);
    forall i | 0 <= i < |tr| && tr[i].answer.Ok? && tr[i].answer.value.Some?
      ensures Contains(tr[i].window, Fin(tr[i].answer.value.value.t))
    {
      assert Honest(objs[i]);
    }
    BoundsShrink(tr, 0, last);
    LeTrans(Fin(h.t), tr[last].window.max, tr[0].window.max);
    forall k | 0 <= k < |tr| && tr[k].answer.Ok? && tr[k].answer.value.Some?
      ensures h.t <= tr[k].answer.value.value.t
    {
      if k < last {
        BoundsShrink(tr, k + 1, last);
        LeTrans(Fin(h.t), tr[last].window.max, tr[k + 1].window.max);
      }
    }
  }

  /** The loop of `hit` (the same in every `World`): each object is asked
      about a fresh `Interval(interval.min, closest_so_far)`, so the
      caller's interval is never touched. */
  method HitAll<M>(objects: seq<Object<M>>, ray: Ray, interval: Interval) returns (r: Result<Option<HitInfo<M>>>)
    ensures r == WorldHit(objects, ray, interval)
  {
    var hitAnything := false;
    var returnRec: Option<HitInfo<M>> := None;
    var closestSoFar := interval.max;
    var i := 0;
    while i < |objects|
      invariant 0 <= i <= |objects|
      invariant hitAnything <==> returnRec.Some?
      invariant WorldHit(objects, ray, interval) == HitFrom(objects[i..], ray, interval.min, closestSoFar, returnRec)
    {
      var obj := objects[i];
      assert objects[i..][1..] == objects[i + 1..];
      var (answer, _) := obj.hit(ray, Interval(interval.min, closestSoFar));
      if answer.Raise? {
        return Raise(answer.error);
      }
      if answer.value.Some? {
        hitAnything := true;
        closestSoFar := Fin(answer.value.value.t);
        returnRec := answer.value;
      }
      i := i + 1;
    }
    r := Ok(returnRec);
  }

  /** book2's `World`, which also keeps the box of everything added. */
  class World<M> {
    var objects: seq<Object<M>>
    var bbox: Option<Aabb>

    ghost predicate Valid()
      reads this
    {
      BoxesCovered(bbox, objects)
    }

    /** `World(object)`: empty, then `add(object)` if one is given. */
    constructor (obj: Option<Object<M>>)
      ensures Valid()
      ensures objects == if obj.Some? then [obj.value] else []
      ensures bbox == if obj.Some? then obj.value.box else None
    {
      objects := [];
      bbox := None;
      new;
      if obj.Some? {
        var _ := Add(obj.value);
      }
    }

    /** `add(obj)`: appends, then merges the box; the merge raising leaves
        the box as it was. */
    method Add(obj: Object<M>) returns (r: Result<()>)
      requires Valid()
      modifies this
      ensures Valid()
      ensures objects == old(objects) + [obj]
      ensures AddBox(old(bbox), obj.box).Ok? ==> r == Ok(()) && bbox == AddBox(old(bbox), obj.box).value
      ensures AddBox(old(bbox), obj.box).Raise? ==> r == Raise(RuntimeError) && bbox == old(bbox)
    {
      AddKeepsCovered(bbox, objects, obj);
      objects := objects + [obj];
      if bbox.None? {
        bbox := obj.box;
      } else if obj.box.None? {
        return Raise(RuntimeError);
      } else {
        bbox := Some(Construct(None, None, None, None, None, bbox, obj.box).value);
      }
      r := Ok(());
    }

    /** `clear()`: the list empties, the box stays. */
    method Clear()
      requires Valid()
      modifies this
      ensures Valid()
      ensures objects == [] && bbox == old(bbox)
    {
      objects := [];
    }

    method Hit(ray: Ray, interval: Interval) returns (r: Result<Option<HitInfo<M>>>)
      ensures r == WorldHit(objects, ray, interval)
    {
      r := HitAll(objects, ray, interval);
    }

    function BoundingBox(): Option<Aabb>
      reads this
    {
      bbox
    }
  }

  /** book1's and src's `World`: the list alone. */
  class PlainWorld<M> {
    var objects: seq<Object<M>>

    constructor ()
      ensures objects == []
    {
      objects := [];
    }

    method Add(obj: Object<M>)
      modifies this
      ensures objects == old(objects) + [obj]
    {
      objects := objects + [obj];
    }

    method Clear()
      modifies this
      ensures objects == []
    {
      objects := [];
    }

    method Hit(ray: Ray, interval: Interval) returns (r: Result<Option<HitInfo<M>>>)
      ensures r == WorldHit(objects, ray, interval)
    {
      r := HitAll(objects, ray, interval);
    }
  }
}
