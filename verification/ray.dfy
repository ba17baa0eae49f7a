/** A ray `R(t) = orig + dir * t`. The first two renderers build rays with
    an origin and a direction only; the third adds the instant `time` at
    which the ray is cast (used by moving spheres). Those rays are modelled
    here with time 0. */
module Rays {
  import opened Vec

  datatype Ray = Ray(orig: Point3, dir: Vector3, time: real)

  /** A ray of the renderers that have no notion of time. */
  function Untimed(orig: Point3, dir: Vector3): (r: Ray)
    ensures r.orig == orig && r.dir == dir && r.time == 0.0
  {
    Ray(orig, dir, 0.0)
  }

  /** `at(t)`: the point reached after travelling `t` times the direction. */
  function At(r: Ray, t: real): Point3
  {
    Add(r.orig, Scale(r.dir, t))
  }

  /** The offset of `at(t)` from the origin is exactly `dir * t`; `at(0)` is
      the origin, and moving `s` further along the ray from `at(t)` lands
      on `at(t + s)`. */
  lemma {:induction false} AtAffine(r: Ray, t: real, s: real)
    ensures Sub(At(r, t), r.orig) == Scale(r.dir, t)
    ensures At(r, 0.0) == r.orig
    ensures At(r, t + s) == Add(At(r, t), Scale(r.dir, s))
  {
    assert Scale(r.dir, t + s) == Add(Scale(r.dir, t), Scale(r.dir, s));
  }
}
