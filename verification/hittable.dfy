/** Hit records. A `HitRecord` is filled in field by field while a shape is
    hit; `HitInfo` is the value it holds at any moment. The material is a
    type parameter because materials are defined further up (the Python
    types it as `Any` for the same reason). */
module Hittables {
  import opened Wrappers
  import opened MathLib
  import opened Vec
  import opened Rays

  datatype HitInfo<M> = HitInfo(p: Point3, normal: Vector3, t: real, frontFace: bool,
                                mat: Option<M>, u: real, v: real)

  /** The normal `set_face_normal` stores: the outward normal when the ray
      comes at it from the outside (`dir . outward < 0`), else its
      negation. */
  function FaceNormal(dir: Vector3, outward: Vector3): (r: Vector3)
    ensures r == outward || r == Neg(outward)
    ensures r == outward <==> Dot(dir, outward) < 0.0 || outward == Zero
  {
    if Dot(dir, outward) < 0.0 then outward else Neg(outward)
  }

  /** Either way the face normal faces against the ray (strictly, unless
      the ray grazes the surface), and it has the outward normal's
      length. */
  lemma {:induction false} FaceNormalFacesRay(dir: Vector3, outward: Vector3)
    ensures Dot(dir, FaceNormal(dir, outward)) <= 0.0
    ensures Dot(dir, outward) != 0.0 ==> Dot(dir, FaceNormal(dir, outward)) < 0.0
    ensures LengthSquared(FaceNormal(dir, outward)) == LengthSquared(outward)
  {
    DotNegRight(dir, outward);
    SqNeg(outward.x);
    SqNeg(outward.y);
    SqNeg(outward.z);
  }

  /** `set_face_normal` as written: the comparison result goes to a local
      variable, so only the normal changes and `front_face` keeps whatever
      it held (True for a fresh record). */
  function SetFaceNormalAsWritten<M>(h: HitInfo<M>, dir: Vector3, outward: Vector3): (r: HitInfo<M>)
    ensures r.normal == FaceNormal(dir, outward)
    ensures r == h.(normal := r.normal)
  {
    h.(normal := FaceNormal(dir, outward))
  }

  /** `set_face_normal` as its docstring describes it: `front_face` records
      whether the ray hit the outside, so the stored normal is the outward
      one exactly when `front_face` holds. */
  function SetFaceNormal<M>(h: HitInfo<M>, dir: Vector3, outward: Vector3): (r: HitInfo<M>)
    ensures r.normal == FaceNormal(dir, outward)
    ensures r.frontFace ==> r.normal == outward
    ensures !r.frontFace ==> r.normal == Neg(outward)
    ensures r.frontFace <==> Dot(dir, outward) < 0.0
    ensures r == h.(normal := r.normal, frontFace := r.frontFace)
  {
    h.(normal := FaceNormal(dir, outward), frontFace := Dot(dir, outward) < 0.0)
  }

  /** Written as it is, `set_face_normal` breaks the link between
      `front_face` and the normal: a ray leaving a unit sphere through
      (1, 0, 0) flips the normal but leaves `front_face` True, where the
      intended rule would set it to False. */
  lemma FrontFaceStale<M>(h: HitInfo<M>)
    requires h.frontFace
    ensures SetFaceNormalAsWritten(h, Vector3(1.0, 0.0, 0.0), Vector3(1.0, 0.0, 0.0)).frontFace
    ensures SetFaceNormalAsWritten(h, Vector3(1.0, 0.0, 0.0), Vector3(1.0, 0.0, 0.0)).normal == Vector3(-1.0, 0.0, 0.0)
    ensures !SetFaceNormal(h, Vector3(1.0, 0.0, 0.0), Vector3(1.0, 0.0, 0.0)).frontFace
  {
  }

  /** `HitRecord`. The constructor's defaults give `t = 0`, `front_face =
      True`, no material and `u = v = 0`. */
  class HitRecord<M> {
    var p: Point3
    var normal: Vector3
    var t: real
    var frontFace: bool
    var mat: Option<M>
    var u: real
    var v: real

    constructor (p: Point3 := Zero, normal: Vector3 := Zero, t: real := 0.0,
                 frontFace: bool := true, mat: Option<M> := None)
      ensures Info() == HitInfo(p, normal, t, frontFace, mat, 0.0, 0.0)
    {
      this.p := p;
      this.normal := normal;
      this.t := t;
      this.frontFace := frontFace;
      this.mat := mat;
      this.u := 0.0;
      this.v := 0.0;
    }

    function Info(): HitInfo<M>
      reads this
    {
      HitInfo(p, normal, t, frontFace, mat, u, v)
    }

    /** `set_face_normal(ray, outward_normal)`: overwrites the normal and
        nothing else. */
    method SetFaceNormal(ray: Ray, outward: Vector3)
      modifies this
      ensures Info() == SetFaceNormalAsWritten(old(Info()), ray.dir, outward)
      ensures frontFace == old(frontFace)
    {
      normal := if Dot(ray.dir, outward) < 0.0 then outward else Neg(outward);
    }
  }
}
