/** `BVHNode` of book2: a node with two children and the box around both.
    The build takes its children straight from the list (a span of one
    object or two); every other span reaches a `sorted(..., cmp=...)` call
    that Python 3 rejects with TypeError, so no node ever has a node as a
    child. A node's `hit` first narrows the caller's interval in place with
    the box test, then asks its children. */
module Bvhs {
  import opened Wrappers
  import opened ExtReals
  import opened Vec
  import opened Rays
  import opened Intervals
  import opened Aabbs
  import opened Hittables
  import opened Worlds

  // ----- build -----

  /** The two children the build picks for `objects[start:end]`: the same
      object twice for a span of one, the two objects for a span of two;
      any other span raises TypeError at the `sorted` call. */
  function Children<M>(objects: seq<Object<M>>, start: int, end: int): (r: Result<(Object<M>, Object<M>)>)
    ensures end - start != 1 && end - start != 2 ==> r == Raise(TypeError)
    ensures r.Ok? <==> (end - start == 1 || end - start == 2) && -|objects| <= start && end - 1 < |objects|
    ensures r.Ok? ==> r.value.0 in objects && r.value.1 in objects
    ensures r.Ok? && end - start == 1 ==> r.value.0 == r.value.1
    ensures r.Ok? && 0 <= start ==> r.value.0 == objects[start] && r.value.1 == objects[end - 1]
  {
    var span := end - start;
    if span == 1 then
      var o :- PyIndex(objects, start);
      Ok((o, o))
    else if span == 2 then
      var l :- PyIndex(objects, start);
      var r :- PyIndex(objects, start + 1);
      Ok((l, r))
    else
      Raise(TypeError)
  }

  /** A built node: its two children and its box. */
  datatype Node<M> = Node(left: Object<M>, right: Object<M>, bbox: Aabb)

  /** `BVHNode(objects, start, end, world)`: a given world replaces the
      list and the range by all of its objects. The box is
      `AABB(box0=left.bounding_box(), box1=right.bounding_box())`, which
      raises RuntimeError when a child has no box. */
  function Build<M>(objects: seq<Object<M>>, start: int, end: int, world: Option<seq<Object<M>>>): (r: Result<Node<M>>)
  {
    var objs := if world.Some? then world.value else objects;
    var s := if world.Some? then 0 else start;
    var e := if world.Some? then |world.value| else end;
    var children :- Children(objs, s, e);
    var box :- Construct(None, None, None, None, None, children.0.box, children.1.box);
    Ok(Node(children.0, children.1, box))
  }

  /** What the build yields: TypeError for every span but one and two; a
      node whose children come from the list, are one object for a span
      of one, and whose box covers the boxes of both. */
  lemma {:induction false} BuildOutcome<M>(objects: seq<Object<M>>, start: int, end: int, world: Option<seq<Object<M>>>)
    ensures var objs, span := if world.Some? then world.value else objects,
                              if world.Some? then |world.value| else end - start;
      var first := if world.Some? then 0 else start;
      var r := Build(objects, start, end, world);
      && (span != 1 && span != 2 ==> r == Raise(TypeError))
      && (r.Ok? <==> (span == 1 || span == 2) && -|objs| <= first && first + span - 1 < |objs|
                     && Children(objs, first, first + span).value.0.box.Some?
                     && Children(objs, first, first + span).value.1.box.Some?)
      && (r.Ok? ==> r.value.left in objs && r.value.right in objs)
      && (r.Ok? && span == 1 ==> r.value.left == r.value.right)
      && (r.Ok? ==> BoxCovers(r.value.bbox, r.value.left.box.value) && BoxCovers(r.value.bbox, r.value.right.box.value))
  {
    var r := Build(objects, start, end, world);
    if r.Ok? {
      AddBoxCovers(r.value.left.box, r.value.right.box);
    }
  }

  /** `BVHNode(world=w)` is the node built over all of `w`'s objects. */
  lemma BuildFromWorld<M>(objects: seq<Object<M>>, start: int, end: int, w: seq<Object<M>>)
    ensures Build(objects, start, end, Some(w)) == Build(w, 0, |w|, None)
  {
  }

  /** `box_{x,y,z}_compare(a, b)` with `n` 0, 1 or 2: whether `a`'s box
      starts before `b`'s on that axis. An object without a box raises
      AttributeError (`None` has no `axis_interval`). */
  function BoxCompare<M>(a: Object<M>, b: Object<M>, n: nat): (r: Result<bool>)
    requires n < 3
    ensures r.Raise? <==> a.box.None? || b.box.None?
    ensures r.Raise? ==> r.error == AttributeError
    ensures r.Ok? ==> (r.value <==> Lt(AxisOf(a.box.value, n).min, AxisOf(b.box.value, n).min))
  {
    if a.box.None? || b.box.None? then Raise(AttributeError)
    else Ok(Lt(AxisOf(a.box.value, n).min, AxisOf(b.box.value, n).min))
  }

  /** Each comparator is a strict order: irreflexive, asymmetric and
      transitive. */
  lemma {:induction false} BoxCompareStrict<M>(a: Object<M>, b: Object<M>, c: Object<M>, n: nat)
    requires n < 3
    ensures BoxCompare(a, a, n) != Ok(true)
    ensures BoxCompare(a, b, n) == Ok(true) ==> BoxCompare(b, a, n) == Ok(false)
    ensures BoxCompare(a, b, n) == Ok(true) && BoxCompare(b, c, n) == Ok(true) ==> BoxCompare(a, c, n) == Ok(true)
  {
    if BoxCompare(a, b, n) == Ok(true) && BoxCompare(b, c, n) == Ok(true) {
      var x, y, z := AxisOf(a.box.value, n).min, AxisOf(b.box.value, n).min, AxisOf(c.box.value, n).min;
      LeTrans(x, y, z);
      if x == z { LeAntisym(x, y); }
    }
    if BoxCompare(a, b, n) == Ok(true) {
      var x, y := AxisOf(a.box.value, n).min, AxisOf(b.box.value, n).min;
      if Le(y, x) { LeAntisym(x, y); }
    }
  }

  // ----- hit -----

  /** What happens inside a node's `hit`: either it stops early with an
      answer (the box was missed, or something raised), or both children
      were asked; `after` is the caller's interval as left behind (by the
      box test and then by the left child, which is handed the same
      object) and `window` the interval the right child was asked about. */
  datatype Visit<M> =
    | Stopped(answer: Result<Option<HitInfo<M>>>, after: Interval)
    | Asked(left: Option<HitInfo<M>>, right: Option<HitInfo<M>>, after: Interval, window: Interval)

  function VisitOf<M>(node: Node<M>, ray: Ray, t: Interval): Visit<M>
  {
    var (inBox, t1) := Aabbs.HitFrom(node.bbox, ray, t, 0);
    if inBox.Raise? then Stopped(Raise(inBox.error), t1)
    else if !inBox.value then Stopped(Ok(None), t1)
    else
      var (la, t2) := node.left.hit(ray, t1);
      if la.Raise? then Stopped(Raise(la.error), t2)
      else
        var w := Interval(t2.min, if la.value.Some? then Fin(la.value.value.t) else t2.max);
        var ra := node.right.hit(ray, w).0;
        if ra.Raise? then Stopped(Raise(ra.error), t2)
        else Asked(la.value, ra.value, t2, w)
  }

  /** `BVHNode.hit` as written: `rec_left` whenever the left child hit,
      else `rec_right`; and the caller's interval as the call leaves it. */
  function NodeHit<M>(node: Node<M>, ray: Ray, t: Interval): (Result<Option<HitInfo<M>>>, Interval)
  {
    match VisitOf(node, ray, t)
    case Stopped(a, after) => (a, after)
    case Asked(l, r, after, _) => (Ok(if l.Some? then l else r), after)
  }

  /** The node as an object of a world: its `hit` and its box. */
  function AsObject<M>(node: Node<M>): (o: Object<M>)
    ensures o.box == Some(node.bbox)
    ensures forall ray, t :: o.hit(ray, t) == NodeHit(node, ray, t)
  {
    Object((ray, t) => NodeHit(node, ray, t), Some(node.bbox))
  }

  /** An object that only narrows the interval it is handed in place, as
      every hittable of book2 does (a node through its box test). */
  ghost predicate Narrows<M>(o: Object<M>)
  {
    forall ray: Ray, t: Interval :: Le(t.min, o.hit(ray, t).1.min) && Le(o.hit(ray, t).1.max, t.max)
  }

  /** A node never widens the caller's interval, and with honest children
      that narrow at most, its reported hit lies in the interval it was
      asked about; the right child is only asked below the left's hit. */
  lemma {:induction false} VisitBounds<M>(node: Node<M>, ray: Ray, t: Interval)
    requires Narrows(node.left)
    ensures var v := VisitOf(node, ray, t);
      Le(t.min, v.after.min) && Le(v.after.max, t.max)
    ensures var v := VisitOf(node, ray, t);
      v.Asked? ==>
        && v.window.min == v.after.min
        && v.window.max == (if v.left.Some? then Fin(v.left.value.t) else v.after.max)
    ensures var v := VisitOf(node, ray, t);
      Honest(node.left) && v.Asked? && v.left.Some? ==> Contains(t, Fin(v.left.value.t))
    ensures var v := VisitOf(node, ray, t);
      Honest(node.right) && v.Asked? && v.right.Some? ==> Contains(v.window, Fin(v.right.value.t))
    ensures var v := VisitOf(node, ray, t);
      Honest(node.right) && v.Asked? && v.right.Some? && (v.left.None? || Honest(node.left)) ==>
        Contains(t, Fin(v.right.value.t))
  {
    var (inBox, t1) := Aabbs.HitFrom(node.bbox, ray, t, 0);
    HitNarrows(node.bbox, ray, t, 0);
    var t2 := node.left.hit(ray, t1).1;
    assert Le(t1.min, t2.min) && Le(t2.max, t1.max);
    LeTrans(t.min, t1.min, t2.min);
    LeTrans(t2.max, t1.max, t.max);
    var v := VisitOf(node, ray, t);
    if v.Asked? {
      var la := node.left.hit(ray, t1).0;
      if Honest(node.left) && la.value.Some? {
        var s := Fin(la.value.value.t);
        assert Contains(t1, s);
        LeTrans(t.min, t1.min, s);
        LeTrans(s, t1.max, t.max);
      }
      if Honest(node.right) && v.right.Some? && (v.left.None? || Honest(node.left)) {
        var s := Fin(v.right.value.t);
        assert Contains(v.window, s);
        LeTrans(t.min, t2.min, s);
        LeTrans(s, v.window.max, t.max);
      }
    }
  }

  /** A node made of honest children, the left of which only narrows, is
      itself honest and only narrows: it may sit in a world or under
      another node. */
  lemma {:induction false} NodeIsHonest<M>(node: Node<M>)
    requires Honest(node.left) && Honest(node.right) && Narrows(node.left)
    ensures Honest(AsObject(node)) && Narrows(AsObject(node))
  {
    var o := AsObject(node);
    forall ray: Ray, t: Interval ensures Le(t.min, o.hit(ray, t).1.min) && Le(o.hit(ray, t).1.max, t.max) {
      VisitBounds(node, ray, t);
    }
    forall ray: Ray, t: Interval | o.hit(ray, t).0.Ok? && o.hit(ray, t).0.value.Some?
      ensures Contains(t, Fin(o.hit(ray, t).0.value.value.t))
    {
      VisitBounds(node, ray, t);
    }
  }

  /** `hit(ray, interval)`: the box test narrows `interval` in place, the
      left child is handed the same interval object and the right child a
      new one. */
  method HitNode<M>(node: Node<M>, ray: Ray, interval: IntervalRef) returns (r: Result<Option<HitInfo<M>>>)
    modifies interval
    ensures (r, interval.Value()) == NodeHit(node, ray, old(interval.Value()))
  {
    var inBox := Aabbs.Hit(node.bbox, ray, interval);
    if inBox.Raise? {
      return Raise(inBox.error);
    }
    if !inBox.value {
      return Ok(None);
    }
    var (recLeft, left) := node.left.hit(ray, interval.Value());
    interval.min, interval.max := left.min, left.max;
    if recLeft.Raise? {
      return Raise(recLeft.error);
    }
    var hitLeft := recLeft.value.Some?;
    var bound := if hitLeft then Fin(recLeft.value.value.t) else interval.max;
    var recRight := node.right.hit(ray, Interval(interval.min, bound)).0;
    if recRight.Raise? {
      return Raise(recRight.error);
    }
    r := Ok(if hitLeft then recLeft.value else recRight.value);
  }

  // ----- the nearer of the two hits -----

  /** What `hit` evidently means to return: the right child was asked only
      below the left child's hit, so its hit, when there is one, is the
      nearer of the two. */
  function NearestNodeHit<M>(node: Node<M>, ray: Ray, t: Interval): (Result<Option<HitInfo<M>>>, Interval)
  {
    match VisitOf(node, ray, t)
    case Stopped(a, after) => (a, after)
    case Asked(l, r, after, _) => (Ok(if r.Some? then r else l), after)
  }

  /** With an honest right child the corrected answer is a hit exactly
      when a child hit, is one of the children's hits, and is at least as
      near as each of them. */
  lemma {:induction false} NearestNodeHitIsNearest<M>(node: Node<M>, ray: Ray, t: Interval)
    requires Honest(node.right) && Narrows(node.left)
    ensures var v, r := VisitOf(node, ray, t), NearestNodeHit(node, ray, t).0;
      v.Asked? ==>
        && r.Ok?
        && (r.value.Some? <==> v.left.Some? || v.right.Some?)
        && (r.value.Some? ==> r.value == v.left || r.value == v.right)
        && (r.value.Some? && v.left.Some? ==> r.value.value.t <= v.left.value.t)
        && (r.value.Some? && v.right.Some? ==> r.value.value.t <= v.right.value.t)
    ensures NearestNodeHit(node, ray, t).1 == NodeHit(node, ray, t).1
  {
    VisitBounds(node, ray, t);
  }

  /** The written and the corrected answer differ only when both children
      hit. */
  lemma NodeHitAgreesUnlessBothHit<M>(node: Node<M>, ray: Ray, t: Interval)
    ensures var v := VisitOf(node, ray, t);
      !(v.Asked? && v.left.Some? && v.right.Some?) ==> NodeHit(node, ray, t) == NearestNodeHit(node, ray, t)
  {
  }

  /** An object that reports a hit at `d` whenever `d` lies in the interval
      it is asked about, and leaves the interval alone. */
  function HitsAt(d: real, box: Aabb): Object<int>
  {
    Object((ray, i) => if Contains(i, Fin(d)) then (Ok(Some(HitInfo(Zero, Zero, d, true, None, 0.0, 0.0))), i)
                       else (Ok(None), i),
           Some(box))
  }

  lemma HitsAtIsHonest(d: real, box: Aabb)
    ensures Honest(HitsAt(d, box)) && Narrows(HitsAt(d, box))
  {
  }

  const Cube := Aabb(Interval(Fin(-10.0), Fin(10.0)), Interval(Fin(-10.0), Fin(10.0)), Interval(Fin(-10.0), Fin(10.0)))
  const Diagonal := Ray(Zero, Vector3(1.0, 1.0, 1.0), 0.0)

  /** The diagonal ray from the origin passes the cube's box test over
      `(0.001, inf)`, which leaves both 1 and 2 inside the interval. */
  lemma {:induction false} DiagonalEntersCube()
    ensures var h := Aabbs.HitFrom(Cube, Diagonal, Interval(Fin(0.001), PosInf), 0);
      h.0 == Ok(true) && Surrounds(h.1, Fin(1.0)) && Surrounds(h.1, Fin(2.0))
  {
    EntersCube(Cube, Diagonal, Interval(Fin(0.001), PosInf));
  }

  lemma {:induction false} EntersCube(box: Aabb, ray: Ray, t: Interval)
    requires box == Cube && ray == Diagonal && t == Interval(Fin(0.001), PosInf)
    ensures var h := Aabbs.HitFrom(box, ray, t, 0);
      h.0 == Ok(true) && Surrounds(h.1, Fin(1.0)) && Surrounds(h.1, Fin(2.0))
  {
    forall n | 0 <= n < 3 ensures Coord(ray.dir, n) != 0.0 {
    }
    InCube(box, ray, 1.0);
    InCube(box, ray, 2.0);
    HitCompleteTwice(box, ray, t, 1.0, 2.0);
  }

  lemma HitCompleteTwice(box: Aabb, ray: Ray, t: Interval, s1: real, s2: real)
    requires forall k :: 0 <= k < 3 ==> Coord(ray.dir, k) != 0.0
    requires Surrounds(t, Fin(s1)) && StrictlyInBox(box, At(ray, s1))
    requires Surrounds(t, Fin(s2)) && StrictlyInBox(box, At(ray, s2))
    ensures var h := Aabbs.HitFrom(box, ray, t, 0);
      h.0 == Ok(true) && Surrounds(h.1, Fin(s1)) && Surrounds(h.1, Fin(s2))
  {
    HitComplete(box, ray, t, s1, 0);
    HitComplete(box, ray, t, s2, 0);
  }

  lemma InCube(box: Aabb, ray: Ray, s: real)
    requires box == Cube && ray == Diagonal && -10.0 < s < 10.0
    ensures StrictlyInBox(box, At(ray, s))
  {
    var p := At(ray, s);
    assert p == Vector3(s, s, s);
    forall n | 0 <= n < 3 ensures StrictlyBetween(AxisOf(box, n), Coord(p, n)) {
    }
  }

  /** A concrete node on which `hit` as written returns the farther hit:
      the left child hits at 2, the right child, asked over `(0.001, 2)`,
      hits at 1, and `rec_left` is returned. */
  lemma {:induction false} RecLeftShadowsNearerHit()
    ensures var node := Node(HitsAt(2.0, Cube), HitsAt(1.0, Cube), Cube);
      var t := Interval(Fin(0.001), PosInf);
      && Honest(node.left) && Honest(node.right) && Narrows(node.left)
      && VisitOf(node, Diagonal, t).Asked?
      && VisitOf(node, Diagonal, t).right == Some(HitInfo(Zero, Zero, 1.0, true, None, 0.0, 0.0))
      && NodeHit(node, Diagonal, t).0 == Ok(Some(HitInfo(Zero, Zero, 2.0, true, None, 0.0, 0.0)))
      && NearestNodeHit(node, Diagonal, t).0 == Ok(Some(HitInfo(Zero, Zero, 1.0, true, None, 0.0, 0.0)))
  {
    HitsAtIsHonest(2.0, Cube);
    HitsAtIsHonest(1.0, Cube);
    DiagonalEntersCube();
  }
}
