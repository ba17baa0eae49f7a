/** The camera of the second book and the fixed camera of the earliest
    renderer: image size, pixel sampling and the recursive colour of a ray.
    The render loops and the text they write are not part of this model. */
module Cameras {
  import opened Wrappers
  import opened ExtReals
  import opened MathLib
  import opened Vec
  import opened Rays
  import opened Intervals
  import opened Hittables
  import opened Worlds
  import opened Materials
  import opened Utils

  // ----- image size and sampling -----

  /** `int(image_width / aspect_ratio)`, raised to at least 1: the height
      that best matches the aspect ratio, never below one row. */
  function ImageHeight(width: int, aspect: real): (h: int)
    requires aspect != 0.0
    ensures h >= 1
  {
    var t := Trunc(width as real / aspect);
    if t > 1 then t else 1
  }

  /** The height is the whole part of `width / aspect` when that is 2 or
      more, and 1 below 2. */
  lemma {:induction false} ImageHeightMatchesAspect(width: int, aspect: real)
    requires aspect != 0.0
    ensures var h := ImageHeight(width, aspect);
      && (h > 1 ==> h as real <= width as real / aspect < h as real + 1.0)
      && (width as real / aspect < 2.0 ==> h == 1)
      && (width as real / aspect >= 2.0 ==> h > 1)
  {
  }

  /** `_sample_square()`: an offset in the unit square centred on the
      pixel, `[-0.5, 0.5)` on both axes, in the image plane. */
  function SampleSquare(d1: real, d2: real): (r: Vector3)
    requires IsDraw(d1) && IsDraw(d2)
    ensures -0.5 <= r.x < 0.5 && -0.5 <= r.y < 0.5 && r.z == 0.0
  {
    Vector3(RandomFloat(0.0, 1.0, d1) - 0.5, RandomFloat(0.0, 1.0, d2) - 0.5, 0.0)
  }

  /** Every offset of the square is drawn by some pair of draws. */
  lemma {:induction false} SampleSquareOnto(x: real, y: real)
    requires -0.5 <= x < 0.5 && -0.5 <= y < 0.5
    ensures IsDraw(x + 0.5) && IsDraw(y + 0.5)
    ensures SampleSquare(x + 0.5, y + 0.5) == Vector3(x, y, 0.0)
  {
    assert Prod(x + 0.5, 1.0 - 0.0) == x + 0.5;
    assert Prod(y + 0.5, 1.0 - 0.0) == y + 0.5;
  }

  // ----- the camera of the second book -----

  class Camera {
    var aspectRatio: real
    var imageWidth: int
    var samplesPerPixel: int
    var maxDepth: int
    var vfov: real
    var lookFrom: Point3
    var lookAt: Point3
    var vup: Vector3
    var background: Color

    /** Set by `Initialize`. */
    var imageHeight: int
    var center: Point3
    var pixelSamplesScale: real

    /** `Camera(...)`, whose defaults are a square 100-pixel image, 10
        samples per pixel, 10 bounces, a 90-degree field of view, looking
        from the origin down -z with +y up, on a black background. */
    constructor (aspectRatio: real := 1.0, imageWidth: int := 100, samplesPerPixel: int := 10,
                 maxDepth: int := 10, vfov: real := 90.0,
                 lookFrom: Point3 := Vector3(0.0, 0.0, 0.0), lookAt: Point3 := Vector3(0.0, 0.0, -1.0),
                 vup: Vector3 := Vector3(0.0, 1.0, 0.0), background: Color := Vector3(0.0, 0.0, 0.0))
      ensures this.aspectRatio == aspectRatio && this.imageWidth == imageWidth
      ensures this.samplesPerPixel == samplesPerPixel && this.maxDepth == maxDepth && this.vfov == vfov
      ensures this.lookFrom == lookFrom && this.lookAt == lookAt && this.vup == vup
      ensures this.background == background
    {
      this.aspectRatio := aspectRatio;
      this.imageWidth := imageWidth;
      this.samplesPerPixel := samplesPerPixel;
      this.maxDepth := maxDepth;
      this.vfov := vfov;
      this.lookFrom := lookFrom;
      this.lookAt := lookAt;
      this.vup := vup;
      this.background := background;
    }

    /** The configuration `Initialize` cannot complete: a zero aspect ratio,
        a camera looking at its own position, an up vector along the view
        direction, a zero width or no samples, each a division by zero. */
    ghost predicate Degenerate(m: Oracle)
      requires Lawful(m)
      reads this
    {
      || aspectRatio == 0.0
      || lookFrom == lookAt
      || Normalize(m, Cross(vup, Normalize(m, Sub(lookFrom, lookAt)).value)).Raise?
      || imageWidth == 0
      || samplesPerPixel == 0
    }

    /** `_initialize()`: the image height, the camera centre and the scale
        that averages the samples of a pixel. The first division by zero
        stops it, after the fields set before it. */
    method Initialize(m: Oracle) returns (r: Result<()>)
      requires Lawful(m)
      modifies this
      ensures aspectRatio == old(aspectRatio) && imageWidth == old(imageWidth)
      ensures samplesPerPixel == old(samplesPerPixel) && maxDepth == old(maxDepth) && vfov == old(vfov)
      ensures lookFrom == old(lookFrom) && lookAt == old(lookAt) && vup == old(vup)
      ensures background == old(background)
      ensures r.Ok? <==> !Degenerate(m)
      ensures r.Raise? ==> r.error == ZeroDivisionError
      ensures aspectRatio == 0.0 ==> unchanged(this)
      ensures aspectRatio != 0.0 ==> imageHeight == ImageHeight(imageWidth, aspectRatio) && center == lookFrom
      ensures r.Ok? ==> pixelSamplesScale * samplesPerPixel as real == 1.0
      ensures r.Raise? ==> pixelSamplesScale == old(pixelSamplesScale)
    {
      if aspectRatio == 0.0 {
        return Raise(ZeroDivisionError);
      }
      imageHeight := ImageHeight(imageWidth, aspectRatio);
      center := lookFrom;
      var w := Normalize(m, Sub(lookFrom, lookAt));
      if w.Raise? {
        assert lookFrom == lookAt;
        return Raise(ZeroDivisionError);
      }
      var u := Normalize(m, Cross(vup, w.value));
      if u.Raise? {
        return Raise(ZeroDivisionError);
      }
      if imageWidth == 0 {
        return Raise(ZeroDivisionError);
      }
      if samplesPerPixel == 0 {
        return Raise(ZeroDivisionError);
      }
      pixelSamplesScale := 1.0 / samplesPerPixel as real;
      r := Ok(());
    }
  }

  // ----- the colour of a ray -----

  /** The range a scene is queried over: from 0.001, to avoid a ray hitting
      the surface it leaves, to infinity. */
  const Query := Interval(Fin(0.001), PosInf)

  /** The colour a ray gathers and the number of world queries it took. */
  datatype Shaded = Shaded(color: Result<Color>, queries: nat)

  /** `world.hit(ray, interval)`, as `Worlds.World.Hit` answers it. */
  type Scene = (Ray, Interval) -> Result<Option<HitInfo<Material>>>

  /** `rec.mat.emitted(u, v, p)`. */
  type Emission = (Material, real, real, Point3) -> Result<Color>

  /** `rec.mat.scatter(ray, rec)` at the given remaining depth, which picks
      the random draws of that bounce (see `Materials.Scatter`). */
  type Scattering = (Material, Ray, HitInfo<Material>, int) -> Result<Outcome>

  /** `_ray_color(ray, depth, world)`. A hit without material raises
      AttributeError, and a material whose `scatter` returns a bare `False`
      cannot be unpacked (TypeError). The depth falls by one per bounce, so
      a ray makes at most `depth` world queries, and one before anything
      else when `depth` is positive. */
  function RayColor(world: Scene, emit: Emission, scatter: Scattering, background: Color,
                    ray: Ray, depth: int): (r: Shaded)
    ensures r.queries <= if depth < 0 then 0 else depth
    ensures depth <= 0 <==> r.queries == 0
    ensures depth <= 0 ==> r.color == Ok(Zero)
    ensures depth > 0 && world(ray, Query) == Ok(None) ==> r == Shaded(Ok(background), 1)
    ensures depth > 0 && world(ray, Query).Raise? ==> r == Shaded(Raise(world(ray, Query).error), 1)
    decreases depth
  {
    if depth <= 0 then Shaded(Ok(Zero), 0)
    else
      match world(ray, Query)
      case Raise(e) => Shaded(Raise(e), 1)
      case Ok(None) => Shaded(Ok(background), 1)
      case Ok(Some(rec)) =>
        if rec.mat.None? then Shaded(Raise(AttributeError), 1)
        else
          match emit(rec.mat.value, rec.u, rec.v, rec.p)
          case Raise(e) => Shaded(Raise(e), 1)
          case Ok(emission) =>
            match scatter(rec.mat.value, ray, rec, depth)
            case Raise(e) => Shaded(Raise(e), 1)
            case Ok(Bare(_)) => Shaded(Raise(TypeError), 1)
            case Ok(Triple(res, attenuation, scattered)) =>
              if !res then Shaded(Ok(emission), 1)
              else
                var rest := RayColor(world, emit, scatter, background, scattered, depth - 1);
                var color := match rest.color
                  case Raise(e) => Raise(e)
                  case Ok(c) => Ok(Add(emission, Mul(attenuation, c)));
                Shaded(color, 1 + rest.queries)
  }

  /** One bounce: a hit whose material absorbs the ray gives its emission
      alone; one that scatters adds the attenuated colour of the scattered
      ray, traced one level shallower. */
  lemma {:induction false} RayColorBounce(world: Scene, emit: Emission, scatter: Scattering, background: Color,
                                          ray: Ray, depth: int, rec: HitInfo<Material>, emission: Color)
    requires depth > 0 && world(ray, Query) == Ok(Some(rec)) && rec.mat.Some?
    requires emit(rec.mat.value, rec.u, rec.v, rec.p) == Ok(emission)
    ensures var s := scatter(rec.mat.value, ray, rec, depth);
      var r := RayColor(world, emit, scatter, background, ray, depth);
      && (s.Ok? && s.value.Bare? ==> r.color == Raise(TypeError))
      && (s.Ok? && s.value.Triple? && !s.value.flag ==> r.color == Ok(emission))
      && (s.Ok? && s.value.Triple? && s.value.flag ==>
            var rest := RayColor(world, emit, scatter, background, s.value.scattered, depth - 1);
            && r.queries == 1 + rest.queries
            && (rest.color.Ok? ==> r.color == Ok(Add(emission, Mul(s.value.attenuation, rest.color.value))))
            && (rest.color.Raise? ==> r.color == Raise(rest.color.error)))
  {
  }

  /** As written, no material defines `emitted`, so every ray that hits
      anything at a positive depth raises AttributeError: only rays that
      miss the scene get a colour. */
  lemma {:induction false} RayColorRaisesOnHit(world: Scene, scatter: Scattering, background: Color,
                                               ray: Ray, depth: int)
    requires depth > 0 && world(ray, Query).Ok? && world(ray, Query).value.Some?
    ensures RayColor(world, Emitted, scatter, background, ray, depth).color == Raise(AttributeError)
  {
  }

  /** With the default emission (black) no material emits light, so a scene
      against a black background stays black, whatever the bounces. */
  lemma {:induction false} DarkSceneStaysDark(world: Scene, scatter: Scattering, ray: Ray, depth: int)
    ensures var r := RayColor(world, EmittedDefault, scatter, Zero, ray, depth);
      r.color.Ok? ==> r.color.value == Zero
    decreases depth
  {
    if depth > 0 && world(ray, Query).Ok? && world(ray, Query).value.Some? {
      var rec := world(ray, Query).value.value;
      if rec.mat.Some? {
        var s := scatter(rec.mat.value, ray, rec, depth);
        if s.Ok? && s.value.Triple? && s.value.flag {
          DarkSceneStaysDark(world, scatter, s.value.scattered, depth - 1);
          BlackStaysBlack(s.value.attenuation);
        }
      }
    }
  }

  /** Light is attenuated, never created: with black emission, a background
      and attenuations in `[0, 1]` per channel, every colour lies in
      `[0, 1]` per channel. */
  lemma {:induction false} RayColorInUnitCube(world: Scene, scatter: Scattering, background: Color,
                                              ray: Ray, depth: int)
    requires InUnitCube(background)
    requires forall mat, r, rec, k :: scatter(mat, r, rec, k).Ok? && scatter(mat, r, rec, k).value.Triple?
               ==> InUnitCube(scatter(mat, r, rec, k).value.attenuation)
    ensures var r := RayColor(world, EmittedDefault, scatter, background, ray, depth);
      r.color.Ok? ==> InUnitCube(r.color.value)
    decreases depth
  {
    if depth > 0 && world(ray, Query).Ok? && world(ray, Query).value.Some? {
      var rec := world(ray, Query).value.value;
      if rec.mat.Some? {
        var s := scatter(rec.mat.value, ray, rec, depth);
        if s.Ok? && s.value.Triple? && s.value.flag {
          RayColorInUnitCube(world, scatter, background, s.value.scattered, depth - 1);
          var rest := RayColor(world, EmittedDefault, scatter, background, s.value.scattered, depth - 1);
          if rest.color.Ok? {
            ProductInUnitCube(s.value.attenuation, rest.color.value);
          }
        }
      }
    }
  }

  /** Every channel in `[0, 1]`. */
  predicate InUnitCube(c: Color)
  {
    0.0 <= c.x <= 1.0 && 0.0 <= c.y <= 1.0 && 0.0 <= c.z <= 1.0
  }

  lemma ProductInUnitCube(a: Color, b: Color)
    requires InUnitCube(a) && InUnitCube(b)
    ensures InUnitCube(Add(Zero, Mul(a, b)))
  {
    UnitProduct(a.x, b.x);
    UnitProduct(a.y, b.y);
    UnitProduct(a.z, b.z);
  }

  lemma UnitProduct(a: real, b: real)
    requires 0.0 <= a <= 1.0 && 0.0 <= b <= 1.0
    ensures 0.0 <= a * b <= 1.0
  {
    FractionBetween(b, a);
    assert b * a == a * b;
  }

  lemma BlackStaysBlack(a: Color)
    ensures Add(Zero, Mul(a, Zero)) == Zero
  {
  }

  // ----- the camera of the earliest renderer -----

  /** The fixed viewport of the earliest renderer: the steps between pixel
      centres and the centre of the top-left pixel. */
  datatype Viewport = Viewport(width: real, deltaU: Vector3, deltaV: Vector3, pixel00: Point3)

  /** Lines 60-72 of the earliest renderer's `_initialize`: the viewport of the given height at the
      given focal length in front of `center`, as wide as the image's shape
      requires; a zero image width divides by zero. */
  function ViewportOf(center: Point3, focalLength: real, viewportHeight: real,
                      imageWidth: real, imageHeight: real): (r: Result<Viewport>)
    requires imageHeight >= 1.0
    ensures r.Ok? <==> imageWidth != 0.0
    ensures r.Raise? ==> r.error == ZeroDivisionError
  {
    if imageWidth == 0.0 then Raise(ZeroDivisionError)
    else
      var viewportWidth := Prod(viewportHeight, imageWidth / imageHeight);
      var viewportU := Vector3(viewportWidth, 0.0, 0.0);
      var viewportV := Vector3(0.0, -viewportHeight, 0.0);
      var deltaU := Div(viewportU, imageWidth);
      var deltaV := Div(viewportV, imageHeight);
      var upperLeft := Sub(Sub(Vector3(center.x, center.y, center.z - focalLength), Div(viewportU, 2.0)), Div(viewportV, 2.0));
      var pixel00 := Add(upperLeft, RScale(0.5, Add(deltaU, deltaV)));
      Ok(Viewport(viewportWidth, deltaU, deltaV, pixel00))
  }

  /** The viewport keeps the image's shape, `imageWidth` steps span its
      width and `imageHeight` steps its height (downwards), the image plane
      lies `focalLength` in front of the centre, and the pixel centres are
      symmetric about the centre: the last column and the last row mirror
      the first ones. */
  lemma {:induction false} ViewportCentred(center: Point3, focalLength: real, viewportHeight: real,
                                           w: real, h: real)
    requires h >= 1.0 && w != 0.0
    ensures var vp := ViewportOf(center, focalLength, viewportHeight, w, h).value;
      && vp.width * h == viewportHeight * w
      && vp.deltaU.y == 0.0 && vp.deltaU.z == 0.0 && vp.deltaU.x * w == vp.width
      && vp.deltaV.x == 0.0 && vp.deltaV.z == 0.0 && vp.deltaV.y * h == -viewportHeight
      && vp.pixel00.z == center.z - focalLength
      && (vp.pixel00.x - center.x) + (w - 1.0) * vp.deltaU.x == -(vp.pixel00.x - center.x)
      && (vp.pixel00.y - center.y) + (h - 1.0) * vp.deltaV.y == -(vp.pixel00.y - center.y)
  {
    var vw := viewportHeight * (w / h);
    var vp := ViewportOf(center, focalLength, viewportHeight, w, h).value;
    ZeroOver(w);
    ZeroOver(h);
    assert vp.width == vw;
    assert vp.deltaU == Vector3(vw / w, 0.0, 0.0);
    assert vp.deltaV == Vector3(0.0, -viewportHeight / h, 0.0);
    assert vp.pixel00.x - center.x == -(vw / 2.0) + 0.5 * (vw / w);
    assert vp.pixel00.y - center.y == -(-viewportHeight / 2.0) + 0.5 * (-viewportHeight / h);
    CentredRow(vw, w);
    CentredRow(-viewportHeight, h);
    assert (w / h) * h == w;
  }

  lemma ZeroOver(n: real)
    requires n != 0.0
    ensures 0.0 / n == 0.0
  {
  }

  /** A span split into `n` cells, starting at half a cell from `-span/2`:
      the last centre mirrors the first. */
  lemma CentredRow(span: real, n: real)
    requires n != 0.0
    ensures (span / n) * n == span
    ensures -(span / 2.0) + 0.5 * (span / n) + (n - 1.0) * (span / n) == -(-(span / 2.0) + 0.5 * (span / n))
  {
    var d := span / n;
    assert d * n == span;
    assert (n - 1.0) * d == span - d;
  }

  class SrcCamera {
    var aspectRatio: real
    var imageWidth: int
    var samplesPerPixel: int

    /** Set by `Initialize`. */
    var imageHeight: int
    var focalLength: real
    var viewportHeight: real
    var center: Point3
    var viewport: Viewport
    var pixelSamplesScale: real

    /** `Camera(aspect_ratio=1.0, image_width=100, samples_per_pixel=10)`. */
    constructor (aspectRatio: real := 1.0, imageWidth: int := 100, samplesPerPixel: int := 10)
      ensures this.aspectRatio == aspectRatio && this.imageWidth == imageWidth
      ensures this.samplesPerPixel == samplesPerPixel
    {
      this.aspectRatio := aspectRatio;
      this.imageWidth := imageWidth;
      this.samplesPerPixel := samplesPerPixel;
    }

    /** `_initialize()` of the earliest renderer: the camera sits at the
        origin with focal length 1 and a viewport 2 high; a zero aspect
        ratio, width or sample count divides by zero. */
    method Initialize() returns (r: Result<()>)
      modifies this
      ensures aspectRatio == old(aspectRatio) && imageWidth == old(imageWidth)
      ensures samplesPerPixel == old(samplesPerPixel)
      ensures r.Ok? <==> aspectRatio != 0.0 && imageWidth != 0 && samplesPerPixel != 0
      ensures r.Raise? ==> r.error == ZeroDivisionError
      ensures aspectRatio == 0.0 ==> unchanged(this)
      ensures aspectRatio != 0.0 ==> (imageHeight == ImageHeight(imageWidth, aspectRatio)
        && focalLength == 1.0 && viewportHeight == 2.0 && center == Zero)
      ensures r.Ok? ==> ViewportOf(center, focalLength, viewportHeight, imageWidth as real, imageHeight as real) == Ok(viewport)
      ensures r.Ok? ==> pixelSamplesScale * samplesPerPixel as real == 1.0
    {
      if aspectRatio == 0.0 {
        return Raise(ZeroDivisionError);
      }
      imageHeight := ImageHeight(imageWidth, aspectRatio);
      focalLength := 1.0;
      viewportHeight := 2.0;
      center := Vector3(0.0, 0.0, 0.0);
      r := PlaceViewport(center, focalLength, viewportHeight, imageWidth, imageHeight);
      if r.Raise? {
        return;
      }
      if samplesPerPixel == 0 {
        return Raise(ZeroDivisionError);
      }
      pixelSamplesScale := 1.0 / samplesPerPixel as real;
      r := Ok(());
    }

    /** Lines 60-72 of `_initialize`: the viewport for the values just set.
        A zero image width stores a viewport width of 0 and then raises at
        the first division by the width. */
    method PlaceViewport(center: Point3, focalLength: real, viewportHeight: real,
                         imageWidth: int, imageHeight: int) returns (r: Result<()>)
      requires imageHeight >= 1
      modifies this`viewport
      ensures r.Ok? <==> imageWidth != 0
      ensures r.Raise? ==> r.error == ZeroDivisionError && viewport == old(viewport).(width := 0.0)
      ensures r.Ok? ==> ViewportOf(center, focalLength, viewportHeight, imageWidth as real, imageHeight as real) == Ok(viewport)
    {
      var vp := ViewportOf(center, focalLength, viewportHeight, imageWidth as real, imageHeight as real);
      if vp.Raise? {
        // the width is stored before the division by the zero width raises
        viewport := viewport.(width := Prod(viewportHeight, imageWidth as real / imageHeight as real));
        return Raise(ZeroDivisionError);
      }
      viewport := vp.value;
      r := Ok(());
    }
  }

  /** A unit vector has every component in `[-1, 1]`. */
  lemma {:induction false} UnitComponents(v: Vector3)
    requires LengthSquared(v) == 1.0
    ensures -1.0 <= v.x <= 1.0 && -1.0 <= v.y <= 1.0 && -1.0 <= v.z <= 1.0
  {
    UnitAxis(v.x, Sq(v.y) + Sq(v.z));
    UnitAxis(v.y, Sq(v.x) + Sq(v.z));
    UnitAxis(v.z, Sq(v.x) + Sq(v.y));
  }

  lemma UnitAxis(a: real, rest: real)
    requires 0.0 <= rest && Sq(a) + rest == 1.0
    ensures -1.0 <= a <= 1.0
  {
    if 1.0 < Abs(a) {
      SqMonotone(1.0, Abs(a));
      SqNeg(a);
    }
  }

  /** The sky of the earliest renderer: white blended towards light blue as
      the unit direction turns up; `unit_vector` of a zero direction
      divides by zero. */
  function Sky(m: Oracle, dir: Vector3): (r: Result<Color>)
    requires Lawful(m)
    ensures r.Ok? <==> dir != Zero
    ensures r.Raise? ==> r.error == ZeroDivisionError
    ensures r.Ok? ==> 0.5 <= r.value.x <= 1.0 && 0.7 <= r.value.y <= 1.0 && r.value.z == 1.0
  {
    var unit :- Normalize(m, dir);
    UnitComponents(unit);
    var a := 0.5 * (unit.y + 1.0);
    Ok(Add(RScale(1.0 - a, Vector3(1.0, 1.0, 1.0)), RScale(a, Vector3(0.5, 0.7, 1.0))))
  }

  /** Along a unit direction the blend is linear in its height: straight up
      is light blue, straight down white. */
  lemma {:induction false} SkyOfUnit(m: Oracle, v: Vector3)
    requires Lawful(m) && LengthSquared(v) == 1.0
    ensures var a := 0.5 * (v.y + 1.0);
      Sky(m, v) == Ok(Vector3(1.0 - 0.5 * a, 1.0 - 0.3 * a, 1.0))
    ensures v.y == 1.0 ==> Sky(m, v) == Ok(Vector3(0.5, 0.7, 1.0))
    ensures v.y == -1.0 ==> Sky(m, v) == Ok(Vector3(1.0, 1.0, 1.0))
  {
    UnitFixed(m, v);
  }

  /** A unit vector normalises to itself. */
  lemma {:induction false} UnitFixed(m: Oracle, v: Vector3)
    requires Lawful(m) && LengthSquared(v) == 1.0
    ensures Normalize(m, v) == Ok(v)
  {
    var u := Normalize(m, v).value;
    var k :| k > 0.0 && u == Scale(v, k);
    LengthSquaredScale(v, k);
    SqMul(1.0, k);
    if k != 1.0 {
      if k < 1.0 {
        SqMonotone(k, 1.0);
      } else {
        SqMonotone(1.0, k);
      }
    }
  }

  /** `0.5 * (normal + (1, 1, 1))`: the colour that shows a normal. */
  function NormalShade(normal: Vector3): (r: Color)
    ensures LengthSquared(normal) == 1.0 ==>
      0.0 <= r.x <= 1.0 && 0.0 <= r.y <= 1.0 && 0.0 <= r.z <= 1.0
  {
    if LengthSquared(normal) == 1.0 then UnitComponents(normal); RScale(0.5, Add(normal, Vector3(1.0, 1.0, 1.0)))
    else RScale(0.5, Add(normal, Vector3(1.0, 1.0, 1.0)))
  }

  /** `_ray_color(ray, world)` of the earliest renderer: the nearest hit
      from 0 on shows its normal, and the sky shows where nothing is hit. */
  function SrcRayColor<M>(objs: seq<Object<M>>, ray: Ray, m: Oracle): (r: Result<Color>)
    requires Lawful(m)
    ensures var h := WorldHit(objs, ray, Interval(Fin(0.0), PosInf));
      && (h == Ok(None) ==> r == Sky(m, ray.dir))
      && (h.Raise? ==> r == Raise(h.error))
      && (h.Ok? && h.value.Some? ==> r == Ok(NormalShade(h.value.value.normal)))
  {
    var hit :- WorldHit(objs, ray, Interval(Fin(0.0), PosInf));
    match hit
    case Some(rec) => Ok(NormalShade(rec.normal))
    case None => Sky(m, ray.dir)
  }
}
