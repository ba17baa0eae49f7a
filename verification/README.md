# A verified model of the core of `ray-tracing-in-python`

This project models the core of a small Python path tracer in Dafny and
proves properties of that model. The tracer exists in three versions, and
all three are modelled:

- `src/`: the earliest renderer. It has spheres, a flat world and a camera
  that shades by surface normal.
- `book1/`: the first book's renderer. It adds intervals, gamma-corrected
  output and the first materials.
- `book2/`: the second book's renderer. It adds timed rays, moving spheres,
  quads, bounding boxes and a bounding-volume hierarchy (BVH), textures
  (solid, checker, image, Perlin noise), lambertian, metal and dielectric
  materials, and a camera with a recursive colour estimator.

Floats are modelled as `real`, and the two infinities are added by `ExtReals`.
Python exceptions become the `Raise` case of `Wrappers.Result`, so every
division by zero, out-of-range index and missing attribute of the Python
code is an explicit outcome. Every call to `random.random()` becomes a
draw parameter in `[0, 1)`. `math.sqrt`, `acos`, `atan2`, `tan` and `pi`
are fields of a `MathLib.Oracle` record that `MathLib.Lawful` constrains.

Objects whose fields the Python code updates in place are Dafny classes:
`HitRecord`, the camera, the hittable list, the interval that the box hit
narrows, spheres and quads. Values that are never updated after
construction are datatypes. These include vectors, rays, intervals, boxes,
materials, textures, BVH nodes and Perlin tables. Loops of the Python code
(the rejection sampler, the Perlin permutation and interpolation, the
world's hit loop, turbulence) are Dafny methods with loop invariants. Each
method is proved equal to a recursive specification function.

The modules are:

- `Wrappers`: `Result`, `Option` and Python indexing.
- `ExtReals`: floats with infinities.
- `MathLib`: the oracle and arithmetic lemmas.
- `Vec`: vectors.
- `Rays`: rays.
- `Intervals`: intervals.
- `Aabbs`: bounding boxes.
- `Hittables`: hit records.
- `Spheres`, `Quads`: the two primitives.
- `Worlds`: the hittable lists.
- `Bvhs`: the hierarchy.
- `Perlins`: noise.
- `Textures`: textures.
- `Utils`: sampling and colour output.
- `Materials`: materials.
- `Cameras`: the cameras.

## Model

| member | source | states |
|---|---|---|
| Wrappers.PyIndex | book2/image.py:25 | `s[i]` succeeds exactly for `-len(s) <= i < len(s)`, counting negative indices from the end; any other index raises IndexError |
| Vec.Get | src/vec.py:20-28 | `v[key]` gives x, y, z for keys 0, 1, 2 and raises IndexError for every other key |
| Vec.RScale | src/vec.py:65-70 | `s * v` is the same vector as `v * s` |
| Vec.IAdd | src/vec.py:37-42 | `a += b` yields the same vector as `a + b` |
| Vec.IMul | src/vec.py:72-77 | `v *= s` yields the same vector as `v * s` |
| Vec.ITrueDiv | src/vec.py:86-87 | `v /= s`, computed as `v *= 1/s`, equals `v / s` |
| Vec.LengthSquared | src/vec.py:100-101 | the squared length is never negative and is zero only for the zero vector |
| Vec.Length | src/vec.py:103-104 | the length is the non-negative square root of the squared length, zero only for the zero vector |
| Vec.LengthSquaredScale | src/vec.py:51-63 | scaling a vector by `k` scales its squared length by `k²` |
| Vec.UnitVector | src/vec.py:97-98 | for a non-zero vector, `v / v.length()` has length 1 and is a positive multiple of `v` |
| Vec.CrossOrthogonal | src/vec.py:92-95 | the cross product is orthogonal to both operands |
| Vec.CrossAntiCommutes | src/vec.py:92-95 | `a × b = -(b × a)` |
| Vec.DotSymmetric | src/vec.py:89-90 | the dot product is symmetric |
| Vec.SubAddCancel | src/vec.py:30-49 | `(a - b) + b == a` |
| Rays.Untimed | book1/ray.py:19-22 | a ray of the renderers without time has the given origin and direction and time 0 |
| Rays.AtAffine | book1/ray.py:30-35 | `at(t) - orig == dir * t`, `at(0) == orig`, and `at(t + s) == at(t) + dir * s` |
| Intervals.Make | book2/interval.py:21-30 | with both `a` and `b` given, the interval covers both and takes its ends from them; otherwise it keeps `min` and `max` as given |
| Intervals.Merge | book2/interval.py:28-30 | the merged minimum is the smaller of the two minima and the merged maximum the larger of the two maxima |
| Intervals.MergeCovers | book2/interval.py:26-30 | the merged interval contains every value either operand contains |
| Intervals.MergeCommutes | book2/interval.py:28-30 | merging is symmetric |
| Intervals.Size | book2/interval.py:32-34 | the size of finite ends is `max - min`, and the size is non-negative exactly when `min <= max` |
| Intervals.Clamp | book2/interval.py:57-70 | a value below `min` gives `min`, one above `max` gives `max`, a value already inside is unchanged, and the result lies in a non-empty interval |
| Intervals.ClampIdempotent | book2/interval.py:57-70 | clamping twice is clamping once |
| Intervals.Expand | book2/interval.py:72-74 | both finite ends move outwards by `delta / 2` and an infinite end stays, so a finite interval keeps its midpoint and grows by exactly `delta` |
| Intervals.ExpandCovers | book2/interval.py:72-74 | expanding by a non-negative amount keeps every value |
| Intervals.SurroundsContains | book2/interval.py:36-55 | a value the interval surrounds is one it contains |
| Intervals.EmptyAndUniverse | book2/interval.py:77-80 | `EMPTY` contains and surrounds nothing, not even an infinity; `UNIVERSE` contains every value and surrounds every finite one |
| Intervals.IntervalRef.constructor | book2/interval.py:21-25 | a mutable interval starts with the given ends |
| Hittables.FaceNormal | book2/hittable.py:37-38 | the stored normal is the outward normal when `dir · outward < 0` (or the outward normal is zero), and its negation otherwise |
| Hittables.FaceNormalFacesRay | book2/hittable.py:35-38 | the stored normal never points along the ray, points strictly against it unless the ray grazes, and keeps the outward normal's length |
| Hittables.SetFaceNormalAsWritten | book2/hittable.py:35-38 | as written, `set_face_normal` changes only the normal; `front_face` keeps its old value |
| Hittables.SetFaceNormal | book2/hittable.py:11-38 | as documented, `front_face` holds exactly when `dir · outward < 0`, and the stored normal is the outward one exactly when `front_face` holds |
| Hittables.FrontFaceStale | book2/hittable.py:37-38 | for a ray leaving through (1, 0, 0), the written code flips the normal but leaves `front_face` True, whereas the documented rule sets it to False |
| Hittables.HitRecord.constructor | book2/hittable.py:26-33 | a record holds the given point, normal, `t`, `front_face` and material, with `u = v = 0` |
| Hittables.HitRecord.SetFaceNormal | book2/hittable.py:35-38 | the method's new state is `SetFaceNormalAsWritten` of the old one, so `front_face` is unchanged |
| Utils.DegreesToRadians | book1/utils.py:9-10 | 180 degrees is `pi`, 0 is 0, and the sign is kept |
| Utils.RandomFloat | book1/utils.py:13-14 | for `min < max` the sample lies in `[min, max)`; for `min == max` it is `min` |
| Utils.RandomVector | book1/utils.py:17-19 | each component lies in `[min, max)` |
| Utils.FirstInside | src/utils.py:21-25 | the index of the first accepted draw: every earlier candidate has squared length at least 1, and the draw at that index has squared length below 1 |
| Utils.RandomInUnitSphere | src/utils.py:21-25 | the loop returns the first accepted candidate, which lies strictly inside the unit ball and in the cube `[-1, 1)³` |
| Utils.Normalize | src/vec.py:97-98 | normalising succeeds exactly for a non-zero vector and raises ZeroDivisionError otherwise; a success has length 1 and is a positive multiple of the input |
| Utils.RandomUnitVector | src/utils.py:28-29 | the result is the normalised first accepted candidate, and it raises when that candidate is the origin |
| Utils.RandomOnHemisphere | src/utils.py:32-37 | the sample or its negation, whichever is not against the normal; the sample itself is kept exactly when `sample · normal > 0` |
| Utils.LinearToGamma | book1/utils.py:29-32 | the gamma value is non-negative, 0 for a non-positive component, and the positive square root of a positive one |
| Utils.LinearToGammaMonotone | book1/utils.py:29-32 | gamma correction keeps the order of intensities |
| Utils.NearZeroShort | book1/utils.py:35-37 | a near-zero vector has squared length below `3e-16`, the zero vector is near zero, and a component of magnitude at least `1e-8` rules it out |
| Utils.Byte | book1/utils.py:44-47 | a channel byte is in `0..255`, 0 for a non-positive intensity and 255 from `0.999` upwards |
| Utils.ByteMonotone | book1/utils.py:44-47 | a brighter channel never gets a smaller byte |
| Utils.GammaBytes | book1/utils.py:40-48 | `write_color` writes three bytes in `0..255`, and each non-positive channel gives byte 0 |
| Utils.RawBytes | src/vec.py:115-123 | the earliest `write_color` writes three bytes in `0..255` without gamma; each channel of at least `0.999` gives 255 and each non-positive one gives 0 |
| MathLib.Trunc | book1/utils.py:45-47 | `int(x)` truncates toward zero: the result is the whole part of `x` for either sign |
| MathLib.Abs | book1/utils.py:37 | `abs(x)` is non-negative and is `x` or `-x` |
| Aabbs.Coord | book2/aabb.py:22-24 | `p[n]` for an axis `n` in 0..2 never raises and gives that component |
| Aabbs.AxisInterval | book2/aabb.py:33-42 | `axis_interval(n)` gives x, y, z for 0, 1, 2 and raises IndexError for any other `n` |
| Aabbs.FromPoints | book2/aabb.py:19-24 | each axis of the two-point box is ordered and takes its ends from the two points' coordinates |
| Aabbs.FromPointsSymmetric | book2/aabb.py:20-24 | the order of the two corners does not matter, and the box holds both corners |
| Aabbs.FromBoxes | book2/aabb.py:25-28 | each axis of the two-box box is the merge of the two boxes' axes |
| Aabbs.PadAxis | book2/aabb.py:77-84 | padding keeps every value of the axis, leaves an axis of size at least `0.0001` unchanged, keeps an ordered axis ordered, makes a finite ordered axis at least `0.0001` wide, and widens a thinner finite axis by exactly `0.0001` about its centre |
| Aabbs.PadToMinimums | book2/aabb.py:77-84 | every axis of the padded box is the padded axis |
| Aabbs.Construct | book2/aabb.py:12-31 | three intervals take precedence over two points, which take precedence over two boxes; with none of these complete it raises RuntimeError; the result is padded |
| Aabbs.PointsBoxContainsPoints | book2/aabb.py:19-31 | a box built from two points holds both points, and each of its axes is ordered and at least `0.0001` wide |
| Aabbs.PointsBoxContains | book2/aabb.py:19-31 | a box built from two points holds every point whose coordinates each lie between the corners' coordinates |
| Aabbs.BoxesBoxContainsBoxes | book2/aabb.py:25-31 | a box built from two ordered boxes holds every point either box holds |
| Aabbs.LongestAxis | book2/aabb.py:71-75 | `longest_axis()` is 0, 1 or 2 |
| Aabbs.LongestAxisIsLongest | book2/aabb.py:71-75 | when all sizes are numbers, no axis is wider than the chosen one, and no later axis is as wide (a tie goes to the later axis) |
| Aabbs.CrossingCompare | book2/aabb.py:50-53 | comparing the crossing `(e - o) * (1/d)` with `s` is comparing the plane `e` with the point `o + d·s`, with the order reversed for negative `d` |
| Aabbs.SlabExact | book2/aabb.py:50-64 | the slab from the nearer to the farther crossing holds exactly the parameters at which the ray is between the axis's two planes, and strictly inside it exactly when strictly between them |
| Aabbs.Narrow | book2/aabb.py:55-64 | one axis's update leaves exactly the part that the interval and the slab have in common |
| Aabbs.Hit | book2/aabb.py:44-69 | the method's answer, and the interval it leaves the caller holding, are those of the axis-by-axis specification `HitFrom` |
| Aabbs.HitNarrows | book2/aabb.py:55-64 | `hit` never widens the interval it is given |
| Aabbs.HitRaisesOnZeroDirection | book2/aabb.py:50 | the only exception is ZeroDivisionError, and only when a direction component of an axis reached is zero; with none, nothing is raised |
| Aabbs.SlabOfAxis | book2/aabb.py:49-53 | axis `n`'s slab holds exactly the parameters at which the ray is between that axis's planes |
| Aabbs.HitTrueInSlabs | book2/aabb.py:48-69 | when the answer is True, the remaining interval is non-empty, no direction component was zero, and every remaining parameter lies in every slab |
| Aabbs.HitSound | book2/aabb.py:44-69 | soundness: when `hit` answers True, the ray is inside the box at every parameter left in the interval, and that interval is not empty |
| Aabbs.HitComplete | book2/aabb.py:44-69 | completeness: if the ray is strictly inside the box at a parameter strictly inside the interval, and no direction component is zero, `hit` answers True and keeps that parameter |
| Spheres.QuadRoots | book2/sphere.py:95-103 | with `s` the square root of a non-negative discriminant, the zeros of `a t² + 2·half_b·t + c` are exactly the two roots `hit` tries |
| Spheres.NoRoots | book2/sphere.py:95-98 | a negative discriminant means the quadratic has no zero, so answering "no hit" loses nothing |
| Spheres.RootsOrdered | book2/sphere.py:101-103 | for `a > 0` the root tried first is never greater than the one tried second |
| Spheres.OnSphereIffRoot | book2/sphere.py:91-95 | the ray is on the sphere at `t` exactly when `t` is a zero of the quadratic built from `oc`, `a`, `half_b` and `c` |
| Spheres.ChooseRoot | book2/sphere.py:95-105 | a negative discriminant is a miss; ZeroDivisionError comes exactly when `a = 0` and the discriminant is non-negative; a chosen root is a zero strictly inside the interval |
| Spheres.PickRoot | book2/sphere.py:95-105 | the statement-by-statement root choice gives exactly `ChooseRoot` |
| Spheres.ChooseRootNearest | book2/sphere.py:100-105 | for `a > 0`, a zero strictly inside the interval means a root is chosen, and that root is at or before the zero |
| Spheres.ZeroDirectionRaises | book2/sphere.py:100-101 | with `a = half_b = 0` the root is `0/0`, which raises ZeroDivisionError |
| Spheres.ZeroDirection | book2/sphere.py:92-93 | a zero direction makes both `a` and `half_b` zero |
| Spheres.SphereUV | book2/sphere.py:62-70 | `acos` raises ValueError exactly when `-p.y` is outside [-1, 1]; otherwise `u` and `v` both lie in [0, 1] |
| Spheres.GetSphereUV | book2/sphere.py:62-70 | the method writes exactly `u` and `v` of the record, with the values `SphereUV` gives, or raises ValueError and leaves the record as it was |
| Spheres.SphereRecordOnSurface | book2/sphere.py:107-113 | for a root on the surface of a sphere of non-zero radius the record is always filled: `t` is the root, `p` is on the ray and the sphere, the normal is a unit vector facing against the ray, and `u, v` are in the unit square |
| Spheres.FillRecord | book2/sphere.py:107-115 | filling a fresh `HitRecord` field by field gives the record of the specification `SphereRecord` |
| Spheres.RecordForOutcomes | book2/sphere.py:97-115 | no root is a miss, an exception of the root choice passes through, a zero radius raises ZeroDivisionError, and otherwise the record is at the chosen root |
| Spheres.ChosenRootOnSphere | book2/sphere.py:91-105 | a chosen root is a point where the ray meets the sphere |
| Spheres.ChosenRootFilled | book2/sphere.py:97-115 | `hit` is the record of the chosen root, and a chosen root on a sphere of non-zero radius is always filled in |
| Spheres.NearestChoice | book2/sphere.py:91-105 | for a ray that moves, a surface point strictly inside the interval forces a choice no later than that point |
| Spheres.SphereHitSound | book2/sphere.py:72-115 | soundness: a reported hit lies strictly inside the interval, on the sphere, with a unit normal facing against the ray and `u, v` in the unit square |
| Spheres.ZeroRadiusRaises | book2/sphere.py:110 | a sphere of radius 0 turns every chosen root into ZeroDivisionError |
| Spheres.RecordForSound | book2/sphere.py:107-115 | the record of a root on a sphere of non-zero radius is at that root and is a surface record |
| Spheres.SphereHitNearest | book2/sphere.py:72-115 | completeness: a surface point strictly inside the interval is never reported as a miss, and for a moving ray and non-zero radius the reported hit is at that point or nearer |
| Spheres.SphereHitOutcomes | book2/sphere.py:95-110 | a negative discriminant misses; the only exception `hit` can raise is ZeroDivisionError, and only for a zero direction (which always raises) or a zero radius; `acos` never raises |
| Spheres.HitStatic | book1/sphere.py:30-69 | `hit` of the first renderer's sphere (and, with no material, of the earliest renderer's in src/sphere.py) gives exactly the specification `SphereHit` without texture coordinates |
| Spheres.HitAt | book2/sphere.py:91-115 | the body of `hit` for a known centre is the record of `ChooseRoot` applied to the sphere's coefficients |
| Spheres.WithinRadius | book2/sphere.py:41-51 | each coordinate of a point within the radius of a centre lies between the centre's coordinate minus and plus the radius |
| Spheres.BallInBox | book2/sphere.py:41-51 | the box `AABB(a=c - rvec, b=c + rvec)` holds every point within the radius of `c` |
| Spheres.SphereBoxContains | book2/sphere.py:41-51 | the bounding box holds the whole sphere, and for a moving sphere the whole sphere at both end centres |
| Spheres.CenterAt | book2/sphere.py:53-60 | `sphere_center` raises AttributeError exactly when the sphere has no `center_vec` (a static sphere) |
| Spheres.CenterAtEnds | book2/sphere.py:53-60 | a moving sphere is at `center1` at time 0 and at `center2` at time 1, and moves by `dt·(center2 - center1)` when the time moves by `dt` |
| Spheres.Sphere.constructor | book2/sphere.py:32-51 | the sphere is moving exactly when `center2` is given; then `center_vec = center2 - center1`; the box is the one around both centres, or around `center1` alone |
| Spheres.Sphere.SphereCenter | book2/sphere.py:53-60 | `sphere_center(time)` fails exactly when the sphere has no `center_vec`, that is for a static sphere |
| Spheres.Sphere.Hit | book2/sphere.py:72-115 | `hit` stores the centre at the ray's time (or `center1` for a static sphere) and answers exactly `SphereHit` with texture coordinates |
| Quads.InteriorBounds | book2/quad.py:62-67 | `_is_interior` accepts exactly the pairs with both coordinates in the closed [0, 1] |
| Quads.Quad.IsInterior | book2/quad.py:62-71 | the answer is True exactly for interior pairs; then the record is fresh and holds `u = alpha`, `v = beta`, and otherwise there is no record |
| Quads.PlaneParameterOnPlane | book2/quad.py:39-47 | for a ray not parallel to the plane, the point reached at `t = (d - normal·origin) / denom` lies on the plane `normal·p = d` |
| Quads.PlaneParameterUnique | book2/quad.py:39-47 | that `t` is the only parameter at which the ray is on the plane |
| Quads.PlanarCoordinatesOfCombination | book2/quad.py:21-50 | with `w = n / (n·n)`, the point `Q + a·u + b·v` gets `alpha = a` and `beta = b`: the planar coordinates are the coordinates along the sides |
| Quads.NormalOrthogonal | book2/quad.py:21-22 | a multiple of `u × v`, such as the unit normal, is orthogonal to both sides |
| Quads.CombinationOnPlane | book2/quad.py:21-23 | every point `Q + a·u + b·v` lies on the plane `normal·p = d` |
| Quads.NotParallelNonZero | book2/quad.py:39-43 | a ray that passes the parallel test has a non-zero `denom`, so the division never raises |
| Quads.DiagonalAxis | book2/quad.py:29-31 | each axis of a diagonal's box holds both ends of the diagonal |
| Quads.QuadBoxAxisIsPadded | book2/quad.py:29-32 | each axis of the quad's box is the padded merge of the two diagonal boxes' axes |
| Quads.CornersInMerge | book2/quad.py:29-32 | the merged diagonal boxes hold all four corners on every axis |
| Quads.CornersInBox | book2/quad.py:29-32 | every axis of the quad's box holds the coordinates of all four corners |
| Quads.AxisHull | book2/quad.py:29-32 | an interval holding the four corner values holds every value between them |
| Quads.HullAxis | book2/quad.py:29-32 | an axis holding the corners' coordinates holds the coordinate of `Q + u·a + v·b` for `a, b` in [0, 1] |
| Quads.QuadBoxContains | book2/quad.py:29-32 | the bounding box holds the whole parallelogram `Q + a·u + b·v`, `a, b` in [0, 1] |
| Quads.QuadHitSound | book2/quad.py:37-60 | soundness: a hit has `t` inside the closed interval and `p` on the ray, on the plane and inside the parallelogram; `u`, `v` are its planar coordinates; the normal faces strictly against the ray and keeps the normal's length; the material is the quad's |
| Quads.QuadHitComplete | book2/quad.py:37-60 | completeness: a ray that is not parallel and reaches `Q + a·u + b·v` (`a, b` in [0, 1]) at a `t` inside the closed interval hits the quad there, with that `t` and with `u = a`, `v = b` |
| Quads.Quad.constructor | book2/quad.py:14-27 | the quad keeps `q`, `u`, `v` and `mat`; `normal` is the unit `u × v`, `d = normal·q`, `w = n / (n·n)`, and the box is the one of the two diagonals |
| Quads.Quad.Hit | book2/quad.py:37-60 | `hit` answers exactly the specification `QuadHit` |
| Worlds.BoxCoversTrans | book2/world.py:28-34 | covering of boxes, axis by axis, is transitive, so boxes merged by repeated `add`s keep covering earlier objects |
| Worlds.AddBox | book2/world.py:31-34 | the first object's box is taken as it is; a later object without a box makes the merge raise RuntimeError, and nothing else raises |
| Worlds.AddBoxCovers | book2/world.py:31-34 | the merged box covers the old box and the new object's box; with no old box it is the object's box |
| Worlds.AddKeepsCovered | book2/world.py:28-34 | after `add`, the world's box still covers every earlier object's box and also covers the new one |
| Worlds.TraceShape | book2/world.py:44-51 | the loop queries object `k` over `(interval.min, bound)`, where the bound starts at `interval.max` and then follows the previous hit's `t`; one query is made per object unless one raises, and a raise ends the loop |
| Worlds.TraceStep | book2/world.py:46-51 | one step of the loop: a query that does not raise is followed by the rest of the list under the new bound |
| Worlds.HitFromRaises | book2/world.py:46-47 | the loop raises exactly when the last query raised, with that exception; otherwise every object was asked |
| Worlds.HitFromRecord | book2/world.py:42-53 | without an exception, the record returned is the one from the last query that hit, or none if no query hit |
| Worlds.SilentCons | book2/world.py:46-51 | a trace has no hit exactly when its first query missed and the rest has no hit |
| Worlds.WorldHitOutcome | book2/world.py:39-53 | an empty world answers `(False, None)`; `hit` raises exactly when some query raised, misses exactly when no query hit, and otherwise returns the last query that hit |
| Worlds.BoundsShrink | book2/world.py:44-51 | with honest objects, each query's upper bound is at most every earlier one |
| Worlds.WorldHitNearest | book2/world.py:39-53 | with objects that report hits only inside the interval they are asked about, the returned hit lies in the caller's interval and is at or before every hit reported along the way |
| Worlds.HitAll | book2/world.py:39-53 | the loop of `hit`, with its `closest_so_far` and `return_rec`, gives exactly the specification `WorldHit` |
| Worlds.World.constructor | book2/world.py:22-26 | a world starts empty with no box; a given object is added, so the world holds that object and its box |
| Worlds.World.Add | book2/world.py:28-34 | `add` appends the object and keeps the box covering every object; when the merge raises RuntimeError the object has still been appended and the box is unchanged |
| Worlds.World.Clear | book2/world.py:36-37 | `clear` empties the list and leaves the box as it was |
| Worlds.World.Hit | book2/world.py:39-53 | `hit` answers exactly `WorldHit` over the current objects |
| Worlds.PlainWorld.constructor | book1/world.py:17-18 | a world starts with no objects |
| Worlds.PlainWorld.Add | book1/world.py:20-21 | `add` appends the object |
| Worlds.PlainWorld.Clear | book1/world.py:23-24 | `clear` empties the list |
| Worlds.PlainWorld.Hit | book1/world.py:26-40 | `hit` of the first renderer (and of the earliest one in src/world.py) answers exactly `WorldHit` |
| Bvhs.Children | book2/bvh.py:22-33 | a span of one takes the same object twice, a span of two takes both objects; any other span raises TypeError at `sorted(..., cmp=...)`; an index out of range (Python's negative indices included) raises IndexError |
| Bvhs.BuildOutcome | book2/bvh.py:13-35 | the build raises TypeError for every span but one and two and RuntimeError when a child has no box; a built node's children come from the list (one object for a span of one), and its box covers both children's boxes |
| Bvhs.BuildFromWorld | book2/bvh.py:15-18 | `BVHNode(world=w)` is the node over all of `w`'s objects, whatever list and range were given |
| Bvhs.BoxCompare | book2/bvh.py:37-53 | `box_{x,y,z}_compare` answers whether `a`'s box starts before `b`'s on that axis, and raises AttributeError when either object has no box |
| Bvhs.BoxCompareStrict | book2/bvh.py:37-53 | each comparator is a strict order: irreflexive, asymmetric and transitive |
| Bvhs.VisitBounds | book2/bvh.py:55-59 | a node never widens the caller's interval; the right child is asked over `(min, rec_left.t)` after a left hit and over the narrowed interval otherwise; honest children report hits inside the caller's interval |
| Bvhs.NodeIsHonest | book2/bvh.py:55-62 | a node over honest children, the left of which only narrows, is itself honest and only narrows, so it may sit in a world or under another node |
| Bvhs.HitNode | book2/bvh.py:55-62 | the method's answer, and the interval object it leaves the caller holding, are those of the specification `NodeHit` (the answer as written) |
| Bvhs.RecLeftShadowsNearerHit | book2/bvh.py:58-61 | on a concrete node whose honest left child hits at 2 and right child at 1, `hit` as written answers 2 while the nearest hit is 1 |
| Bvhs.NearestNodeHitIsNearest | book2/bvh.py:55-62 | the corrected answer (`rec_right` when the right child hit) is a hit exactly when a child hit, is one of the children's hits, and is at least as near as each of them; the interval is left as `hit` leaves it |
| Bvhs.NodeHitAgreesUnlessBothHit | book2/bvh.py:58-61 | the written and the corrected answers differ only when both children hit |
| Bvhs.HitsAtIsHonest | book2/bvh.py:58-59 | the stand-in objects used in the counterexample are honest and leave the interval alone |
| Bvhs.DiagonalEntersCube | book2/bvh.py:56 | the diagonal ray from the origin passes the counterexample cube's box test and keeps both 1 and 2 inside the interval |
| Perlins.Iota | book2/perlin.py:50 | `[i for i in range(n)]` has length `n` and holds `i` at position `i` |
| Perlins.PermutationBounds | book2/perlin.py:32-34 | a permutation of 0..255 has 256 entries, all valid indices into the 256-entry `randvec` table |
| Perlins.SwapPermutes | book2/perlin.py:58 | `p[i], p[target] = p[target], p[i]` exchanges the two entries, keeps every other entry and keeps the multiset of entries |
| Perlins.ShuffleDownPermutes | book2/perlin.py:56-58 | the shuffle from `n - 1` down to 0 keeps the length and the multiset of entries |
| Perlins.Permute | book2/perlin.py:54-59 | `_permute` works in place on the list it is given and returns that same list, which ends up as the shuffle of its old contents by the `randint` draws, with the same multiset |
| Perlins.GeneratePerm | book2/perlin.py:49-52 | `_perlin_generate_perm()` is the shuffle of 0..255 and holds each of 0..255 exactly once |
| Perlins.NewPerlin | book2/perlin.py:10-17 | `Perlin()` keeps the 256 `random_float()` draws, three permutations of 0..255 shuffled by their own draws, and the 256 drawn vectors made unit vectors |
| Perlins.Offset | book2/perlin.py:20-22 | `x - floor(x)` lies in [0, 1) and adds back to `x` with the floor |
| Perlins.Mask | book2/perlin.py:32-34 | `n & 255` on a Python int, negative `n` included, lies in 0..255 and differs from `n` by a multiple of 256 |
| Perlins.Xor | book2/perlin.py:32-34 | the exclusive or of three values in 0..255 stays in 0..255, so it always indexes `randvec` |
| Perlins.CornerIndex | book2/perlin.py:32-34 | the `randvec` index of every lattice corner is in range |
| Perlins.Corners | book2/perlin.py:27-34 | the corner table is 2×2×2 |
| Perlins.HermiteRange | book2/perlin.py:63-65 | the Hermite weight `t²(3 - 2t)` is 0 at 0, 1 at 1 and stays in [0, 1] in between |
| Perlins.TermIs | book2/perlin.py:71-73 | one pass of the inner loop adds the product of the three blend weights and `weight · c[i][j][k]` |
| Perlins.PerlinInterp | book2/perlin.py:61-74 | the three nested loops of `_perlin_interp` compute exactly the eight-corner sum `Interp` |
| Perlins.Noise | book2/perlin.py:19-35 | `noise(p)` fills every corner vector of `p`'s cell and gives exactly the specification `NoiseOf` |
| Perlins.InterpAtCorner | book2/perlin.py:61-74 | the blend is 0 when all offsets are 0 |
| Perlins.TermAtOrigin | book2/perlin.py:71-73 | at offsets 0 every corner's term is 0 |
| Perlins.NoiseAtLattice | book2/perlin.py:19-35 | noise is 0 at every lattice point |
| Perlins.Half | book2/perlin.py:44 | the weight `0.5 ** n` lies in (0, 1] |
| Perlins.OctavesClosed | book2/perlin.py:38-46 | after `n` octaves the weight is `0.5 ** n` and the sum is `noise(p)·(2 - 2·0.5 ** n)` |
| Perlins.OctaveStep | book2/perlin.py:43-44 | one more octave adds `weight·noise(p)` and halves the weight |
| Perlins.TurbulenceClosed | book2/perlin.py:37-47 | `turb` is 0 for a depth of 0 or below, and otherwise `|noise(p)|·(2 - 2·0.5 ** depth)`, so it lies in [0, 2·|noise(p)|] |
| Perlins.Turb | book2/perlin.py:37-47 | the loop of `turb` gives exactly the specification `Turbulence` of `noise(p)` |
| Perlins.TurbulenceAtLattice | book2/perlin.py:37-47 | turbulence is 0 at every lattice point, at every depth |
| Textures.MakeSolid | book2/tex.py:20-26 | a given albedo is kept; otherwise the three components are used when none of them is zero, and RuntimeError is raised when any is |
| Textures.MakeChecker | book2/tex.py:35-45 | a zero scale raises ZeroDivisionError before anything else; a pair of textures wins over a pair of colours, which become solid textures; with neither pair complete RuntimeError is raised; `inv_scale` is the inverse of `scale` |
| Textures.FloorStep | book2/tex.py:48-50 | stepping `x` by `scale` moves `floor(inv_scale·x)` up by exactly one |
| Textures.CellSumStep | book2/tex.py:48-52 | stepping `p` by `scale` along one axis moves `x_int + y_int + z_int` by exactly one |
| Textures.CheckerParityFlips | book2/tex.py:48-52 | stepping `p` by `scale` along one axis flips `is_even`, negative coordinates included |
| Textures.CheckerSwitches | book2/tex.py:47-53 | stepping by `scale` along one axis makes the checker switch to its other sub-texture |
| Textures.UnitClamp | book2/tex.py:64-65 | `Interval(0, 1).clamp(x)` lies in [0, 1], is below 1 exactly when `x` is, and above 0 exactly when `x` is |
| Textures.ClampInt | book2/image.py:27-33 | `clamp(x, low, high)` keeps a value in range, gives `low` below it and stays within both bounds, `high` included |
| Textures.TexelIndex | book2/tex.py:64-67 | the column lies in [0, width] and is below `width` exactly when `u < 1` and the image is not empty; the row lies in [0, height] and is below `height` exactly when `v > 0` and the image is not empty |
| Textures.ScaledIndex | book2/tex.py:66-67 | `int(c·n)` for `c` in [0, 1] lies in [0, n] and is below `n` exactly when `c < 1` and `n > 0` |
| Textures.ImageValue | book2/tex.py:61-70 | the only exception of an image lookup is IndexError |
| Textures.NegativeHeightIsCyan | book2/tex.py:62-63 | an image of negative height gives cyan whatever `(u, v)` is |
| Textures.ImageValueDefined | book2/tex.py:61-70 | on a well-formed image the lookup succeeds exactly when `u < 1`, `v > 0` and the image is not empty |
| Textures.ImageValueReadsTexel | book2/tex.py:61-70 | a successful lookup reads the pixel at `TexelIndex` and scales each channel by `1/255`, so byte channels give a colour in the unit cube |
| Textures.RightEdgeRaises | book2/image.py:22-33 | as written, `u = 1` on any non-empty image selects column `width`, which the clamp lets through and `data[y][x]` rejects with IndexError |
| Textures.ClampIndex | book2/image.py:27-33 | the corrected clamp with upper end `high - 1` always gives a valid index and keeps every index already valid |
| Textures.PixelDataClampedTotal | book2/image.py:22-25 | with the corrected clamp every lookup on a non-empty well-formed image succeeds, and it agrees with `pixel_data` wherever that succeeds |
| Textures.Value | book2/tex.py:12-80 | of all the textures, only an image lookup can raise, and only IndexError |
| Textures.SolidIsConstant | book2/tex.py:29-30 | a solid colour gives its albedo at every `(u, v, p)` |
| Textures.NoiseIsGrey | book2/tex.py:78-80 | noise is a grey (three equal components) between 0 and `2·|noise(p)|`, the same for every `scale` and every `(u, v)` |
| Textures.NoiseBlackAtLattice | book2/tex.py:78-80 | noise is black at every lattice point |
| Materials.ShiftedLength | book2/material.py:35-36 | the squared length of `v - n·k` expands to `|v|² - 2k(v·n) + k²|n|²` |
| Materials.ReflectMirrors | book2/material.py:35-36 | about a unit normal, `_reflect` negates the normal component and keeps the length |
| Materials.MakeLambertian | book2/material.py:41-45 | an albedo becomes a solid texture and wins over a texture; with neither, no texture is stored |
| Materials.LambertianScatter | book2/material.py:47-51 | Lambertian always scatters, from the hit point at the incoming ray's time, along the normal exactly when `normal + sample` is near zero and towards that sum otherwise, with the texture's value as attenuation; it raises AttributeError without a texture, and otherwise only the texture's IndexError |
| Materials.LambertianDirectionNonZero | book2/material.py:48-50 | about a unit normal the scattered direction is never the zero vector |
| Materials.MakeMetal | book2/material.py:56-58 | the fuzz is capped at 1, kept below it, and has no lower bound |
| Materials.MetalScatter | book2/material.py:60-64 | metal raises ZeroDivisionError exactly when the reflected vector is zero; otherwise it scatters along a unit positive multiple of the mirror direction plus `fuzz` times the sample, returns the albedo and a ray from the hit point at the incoming time, and scatters exactly when that ray leaves on the normal's side |
| Materials.MirrorScattersIncoming | book2/material.py:60-64 | a metal without fuzz, about a unit normal, scatters exactly the rays that arrive against the normal |
| Materials.Ratio | book2/material.py:73 | the ratio is the inverse of the index on a front face (a zero index raises ZeroDivisionError) and the index itself on a back face |
| Materials.Reflectance | book2/material.py:89-92 | Schlick's formula raises ZeroDivisionError exactly for an index of -1 |
| Materials.Pow5Unit | book2/material.py:92 | `pow(x, 5)` stays in [0, 1] for `x` in [0, 1] |
| Materials.R0Bounds | book2/material.py:90-91 | for a positive index, `r0` lies in [0, 1) |
| Materials.ReflectanceBounds | book2/material.py:89-92 | for a positive index the reflectance is defined, equals `r0` at normal incidence and lies in [r0, 1] for cosines in [0, 1] |
| Materials.AtMostOne | book2/material.py:75 | `min(x, 1.0)` is at most 1 and at most `x`, and is one of the two |
| Materials.RefractSameMedium | book2/material.py:83-87 | with a ratio of 1, a unit ray through a unit normal passes straight through |
| Materials.PerpLength | book2/material.py:84-85 | the part of a unit `uv` across a unit `n` has squared length `1 - cos²` |
| Materials.AlongUnit | book2/material.py:84-86 | removing from `v` its component `k` along a unit `n` takes `k²` off its squared length |
| Materials.SinTheta | book2/material.py:76 | `sqrt(1 - cos²)` raises only ValueError, and never for a cosine in [-1, 1] |
| Materials.SinThetaUnit | book2/material.py:76 | for a cosine in [-1, 1] the sine lies in [0, 1] |
| Materials.Reflects | book2/material.py:73-77 | the reflect-or-refract test raises only ValueError or ZeroDivisionError |
| Materials.TotalInternalReflection | book2/material.py:77 | past the critical angle the ray is always reflected, whatever the draw, and Schlick's formula is not evaluated (the `or` short-circuits) |
| Materials.DenserMediumRefracts | book2/material.py:73-77 | with a ratio in (0, 1] there is no total internal reflection: Schlick's reflectance against the draw alone decides |
| Materials.DielectricScatter | book2/material.py:72-81 | a dielectric always scatters white light from the hit point at the incoming time, along the mirror direction of the unit incoming direction when `Reflects` answers True and along the refracted one when it answers False; a zero index on a front face or a zero direction raises ZeroDivisionError, and nothing raises other than ZeroDivisionError and ValueError |
| Materials.Scatter | book2/material.py:13-81 | the base material answers a bare False and nothing else does; every scattered ray starts at the hit point at the incoming time; Lambertian and dielectric always scatter |
| Materials.Emitted | book2/material.py:13-92 | as written, no material class defines `emitted`, so the lookup raises AttributeError |
| Materials.EmittedDefault | book2/material.py:13-33 | the evidently intended default: a material that does not emit gives black |
| Materials.SrcScatter | src/material.py:11-36 | in the earliest renderer only the base material answers a bare False; Lambertian and metal always scatter with the albedo from the hit point, the Lambertian along the normal exactly when `normal + sample` is near zero and towards that sum otherwise, the metal along the mirror direction of the incoming ray |
| Materials.SrcMetalMirrors | src/material.py:34-39 | the earliest metal mirrors the incoming direction about a unit normal, keeping its length |
| Cameras.ImageHeight | book2/camera.py:99-100 | the image is always at least one row high |
| Cameras.ImageHeightMatchesAspect | book2/camera.py:99-100 | the height is the whole part of `width / aspect` when that is 2 or more, and 1 below 2 |
| Cameras.SampleSquare | book2/camera.py:95-96 | `_sample_square()` lies in the unit square centred on the pixel, `[-0.5, 0.5)` on both axes, in the image plane |
| Cameras.SampleSquareOnto | book2/camera.py:95-96 | every offset of that square is produced by some pair of draws |
| Cameras.Camera.constructor | book2/camera.py:39-58 | the camera keeps every argument it is given, with the defaults of the source |
| Cameras.Camera.Initialize | book2/camera.py:98-127 | `_initialize` succeeds exactly when the configuration divides by nothing: a non-zero aspect ratio, `look_from` distinct from `look_at`, an up vector not along the view direction, a non-zero width and samples; otherwise ZeroDivisionError, with the fields set before the failing division already written; on success the samples scale averages the samples; the configuration is never changed |
| Cameras.RayColor | book2/camera.py:129-145 | depth 0 or below is black with no query; a positive depth queries the scene first, a miss is the background and an exception passes through; a ray makes at most `depth` scene queries |
| Cameras.RayColorBounce | book2/camera.py:133-145 | a hit whose material does not scatter gives its emission; one that scatters adds the attenuated colour of the scattered ray traced one level shallower; a bare False cannot be unpacked and raises TypeError |
| Cameras.RayColorRaisesOnHit | book2/camera.py:137 | as written, every ray that hits anything at a positive depth raises AttributeError, because no material defines `emitted` |
| Cameras.DarkSceneStaysDark | book2/camera.py:129-145 | with the default black emission, a scene against a black background stays black at every depth |
| Cameras.RayColorInUnitCube | book2/camera.py:129-145 | with black emission, a background in the unit cube and attenuations in [0, 1], every colour lies in the unit cube: light is attenuated, never created |
| Cameras.ViewportOf | src/camera.py:60-72 | the viewport exists exactly when the image width is not zero; a zero width raises ZeroDivisionError |
| Cameras.ViewportCentred | src/camera.py:58-72 | the viewport keeps the image's shape; `image_width` steps span its width and `image_height` steps its height, downwards; the image plane is `focal_length` in front of the centre; the pixel centres are symmetric about the centre |
| Cameras.SrcCamera.constructor | src/camera.py:28-31 | the camera keeps its aspect ratio, width and sample count |
| Cameras.SrcCamera.Initialize | src/camera.py:54-74 | `_initialize` succeeds exactly when the aspect ratio, width and sample count are all non-zero, and raises ZeroDivisionError otherwise; the camera sits at the origin with focal length 1 and a viewport 2 high; the viewport is the one `ViewportOf` describes, and the samples scale averages the samples |
| Cameras.SrcCamera.PlaceViewport | src/camera.py:60-72 | the viewport fields are set to `ViewportOf` of the values given; a zero width raises ZeroDivisionError after the viewport width 0 has been stored, with the other viewport fields left alone |
| Cameras.UnitComponents | src/camera.py:81-82 | a unit direction has every component in [-1, 1], so `a` lies in [0, 1] |
| Cameras.Sky | src/camera.py:81-83 | the sky raises ZeroDivisionError exactly for a zero direction; otherwise it lies between white and light blue |
| Cameras.SkyOfUnit | src/camera.py:81-83 | along a unit direction the blend is linear in its height: straight up is light blue, straight down is white |
| Cameras.UnitFixed | src/camera.py:81 | a unit vector normalises to itself |
| Cameras.NormalShade | src/camera.py:80 | the colour that shows a unit normal lies in the unit cube |
| Cameras.SrcRayColor | src/camera.py:76-83 | the world is asked over `[0, inf]`; a hit shows its normal, a miss shows the sky, and an exception passes through |

## Left out

- Floating point: rounding, overflow and NaN are not modelled, because every float is a `real` with two infinities added. Where Python would produce NaN, the model excludes the input.
- Intervals.Size: requires that `max - min` is not `inf - inf`, because in Python that difference is NaN, which the model cannot represent.
- I/O: the render loops, `_get_ray`, the progress messages, the PPM text written to the output stream and `TextureImage.load` (reading a file through PIL) are left out. A loaded image is a `Textures.TextureImage` value given as a parameter.
- Randomness: every draw of `random.random()`, `randint` and `random_vector` is a parameter with its range as precondition. The model does not describe the distribution of the draws.
- `constants.py`, `book2/vec.py`, `book2/ray.py` and `book2/utils.py` are not part of this model. Vectors follow `src/vec.py`, the helpers follow `book1/utils.py`, and the third renderer's rays are those of `book1/ray.py` with a time field added.
- The `Interval` classes of `book1/interval.py` and `src/interval.py` are the third renderer's class without `size` and `expand`, so `Intervals` models all three.
- Utils.RawBytes: `src/interval.py` defines no `clamp`, so the earliest `write_color` as written raises AttributeError on its first call. The model applies the clamp that `book1/interval.py` defines.
- Materials.SrcScatter: `src/material.py` imports `near_zero` from `src/utils.py`, which does not define it, so that module fails to import as written. The model uses the `near_zero` of `book1/utils.py`.
- Materials.LambertianScatter, Materials.MetalScatter, Materials.Scatter: the sample of `random_unit_vector()` is given as an already normalised unit vector. Its own ZeroDivisionError, for the candidate `(0, 0, 0)`, is modelled by `Utils.RandomUnitVector` and not carried into `scatter`.
- Perlins.Permute: requires `n <= len(p)`. A larger `n` raises IndexError in Python, but the only caller passes the list's own length.
- Perlins.NewPerlin: requires every drawn vector to be non-zero. The zero vector would make `unit_vector` raise ZeroDivisionError.
- Perlins.Xor: only the range of `^` is proved. Cancellation and the other laws of exclusive or are not stated.
- Textures.Value: a noise texture builds a new `Perlin()` on every call. The tables of that call are one parameter `pl`, not fresh draws per call.
- The base classes `Hittable.hit`, `Texture.value` and `Material._reflect` are not modelled as objects of their own. `Hittable.hit` and `Texture.value` return `None`. `_reflect` is `Materials.Reflect`.
- Bvhs.BuildOutcome: the random `axis` draw and the comparator it selects are not modelled, because every span they are used for raises TypeError at `sorted(..., cmp=...)` first. The recursive build for spans above two, with its float `mid`, is never reached.
- Quads.Quad.constructor: requires sides spanning a non-zero area. In Python a degenerate quad raises ZeroDivisionError in `unit_vector` and in `n / n.dot(n)`, and the model has no such outcome for the constructor.
- Cameras.Camera.Initialize: decides only which divisions of `_initialize` raise, and stores only the image height, the centre and the samples scale. The focal length, the viewport size, the basis `u, v, w` and the pixel grid of book2/camera.py:102-125 are not stored.
- Cameras.SrcCamera.PlaceViewport: the attributes `viewport_u`, `viewport_v` and `viewport_upper_left` that src/camera.py:64-70 stores are not modelled, since nothing reads them again. The model's viewport keeps only the width, the two pixel steps and the first pixel centre.
- Cameras.RayColor: the world, the emission and the scattering are function parameters, instantiated by `Worlds.World.Hit`, `Materials.Emitted` or `Materials.EmittedDefault`, and `Materials.Scatter`. The scattering is indexed by the remaining depth, which stands for the draws of that bounce.
- Worlds.World.Hit, Bvhs.HitNode: objects are known only by their `hit` and `bounding_box` results. Aliasing between Python objects and state the objects keep between calls are not modelled, except for the interval that a box test narrows in place.
- Hittables.HitRecord.SetFaceNormal: modelled as written, so `front_face` keeps the value it had (True for every fresh record). Every sphere and quad record therefore says `front_face` is True; see Findings.

## Findings

| source | as written | input that shows it | evidently intended | confidence | as-written member | corrected member |
|---|---|---|---|---|---|---|
| book2/bvh.py:61 | `rec = rec_left if hit_left else rec_right`, although the right child was asked only below `rec_left.t` | a node whose left child hits at 2 and whose right child hits at 1 along the diagonal ray from the origin, over `(0.001, inf)`: `hit` answers 2 | return `rec_right` whenever the right child hit, which is then the nearer hit | not executed | Bvhs.RecLeftShadowsNearerHit | Bvhs.NearestNodeHitIsNearest |
| book2/image.py:23-24 | the column and row are clamped to `[0, width]` and `[0, height]`, bounds included | `u = 1` on any non-empty image: `ImageTexture.value` selects column `width`, and `data[y][width]` raises IndexError | clamp to `width - 1` and `height - 1`, the last valid indices | not executed | Textures.RightEdgeRaises | Textures.PixelDataClampedTotal |
| book2/camera.py:137 | `rec.mat.emitted(u, v, p)` is called, but no class in book2/material.py defines `emitted` | any ray that hits a sphere at a positive depth raises AttributeError | a default `emitted` that returns black for materials that do not emit light | not executed | Cameras.RayColorRaisesOnHit | Cameras.DarkSceneStaysDark |
| book2/hittable.py:37-38 | `front_face` is a local variable and the attribute is never written | a ray along (1, 0, 0) leaving a surface with outward normal (1, 0, 0): the normal is flipped but `front_face` stays True | `self.front_face = ray.direction().dot(outward_normal) < 0` | not executed | Hittables.FrontFaceStale | Hittables.SetFaceNormal |

The book2 camera calls `emitted` on every material, which suggests the material classes are meant to have an `emitted` method that returns black by default. book2/material.py defines none. The model follows the code: `Materials.Emitted` raises, and `Materials.EmittedDefault` is the intended default.
