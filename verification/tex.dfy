/** Textures of the second book: a colour as a function of the surface
    coordinates `(u, v)` and the hit point `p`. Each texture is a value
    whose fields the constructors only store, so the whole module is
    functions over a `Texture` datatype. */
module Textures {
  import opened Wrappers
  import opened ExtReals
  import opened MathLib
  import opened Vec
  import opened Intervals
  import Perlins

  /** One pixel as loaded from the image file: its red, green and blue
      channels. */
  datatype Rgb = Rgb(r: int, g: int, b: int)

  /** A decoded image: its size and its rows of pixels, read `data[y][x]`. */
  datatype TextureImage = TextureImage(width: int, height: int, data: seq<seq<Rgb>>)

  /** The four concrete textures. A checker holds `1 / scale`, and a noise
      texture keeps a `scale` that its `value` never reads. */
  datatype Texture =
    | Solid(albedo: Color)
    | Checker(invScale: real, even: Texture, odd: Texture)
    | Image(image: TextureImage)
    | Noise(scale: real)

  // ----- SolidColor -----

  /** `SolidColor(albedo, red, green, blue)`: a given albedo is kept;
      without one the three components are used only when none of them is
      zero, and otherwise `RuntimeError` is raised. */
  function MakeSolid(albedo: Option<Color>, red: real, green: real, blue: real): (r: Result<Texture>)
    ensures albedo.Some? ==> r == Ok(Solid(albedo.value))
    ensures albedo.None? ==> (r.Ok? <==> red != 0.0 && green != 0.0 && blue != 0.0)
    ensures albedo.None? && r.Ok? ==> r.value == Solid(Vector3(red, green, blue))
    ensures r.Raise? ==> r.error == RuntimeError
  {
    if albedo.Some? then Ok(Solid(albedo.value))
    else if red != 0.0 && green != 0.0 && blue != 0.0 then Ok(Solid(Vector3(red, green, blue)))
    else Raise(RuntimeError)
  }

  // ----- CheckerTexture -----

  /** `CheckerTexture(scale, even, odd, c1, c2)`: `1.0 / scale` is computed
      first (a zero scale raises ZeroDivisionError); a pair of textures wins
      over a pair of colours, which become solid textures; with neither pair
      complete `RuntimeError` is raised. */
  function MakeChecker(scale: real, even: Option<Texture>, odd: Option<Texture>,
                       c1: Option<Color>, c2: Option<Color>): (r: Result<Texture>)
    ensures scale == 0.0 ==> r == Raise(ZeroDivisionError)
    ensures r.Ok? <==> scale != 0.0 && ((even.Some? && odd.Some?) || (c1.Some? && c2.Some?))
    ensures r.Ok? ==> r.value.Checker? && r.value.invScale * scale == 1.0
    ensures r.Ok? && even.Some? && odd.Some? ==> r.value.even == even.value && r.value.odd == odd.value
    ensures r.Ok? && !(even.Some? && odd.Some?) ==>
      r.value.even == Solid(c1.value) && r.value.odd == Solid(c2.value)
    ensures scale != 0.0 && r.Raise? ==> r.error == RuntimeError
  {
    if scale == 0.0 then Raise(ZeroDivisionError)
    else
      var inv := 1.0 / scale;
      if even.Some? && odd.Some? then Ok(Checker(inv, even.value, odd.value))
      else if c1.Some? && c2.Some? then Ok(Checker(inv, Solid(c1.value), Solid(c2.value)))
      else Raise(RuntimeError)
  }

  /** `floor(inv_scale * x)`: the lattice coordinate of `x`. */
  function Cell(invScale: real, x: real): int
  {
    (invScale * x).Floor
  }

  /** The sum of the three lattice coordinates of `p`'s cell. */
  function CellSum(invScale: real, p: Point3): int
  {
    Cell(invScale, p.x) + Cell(invScale, p.y) + Cell(invScale, p.z)
  }

  /** `(x_int + y_int + z_int) % 2 == 0`. Python's `%` takes the sign of the
      divisor, so for the divisor 2 it agrees with the non-negative `%`
      used here, negative sums included. */
  predicate EvenCell(invScale: real, p: Point3)
  {
    CellSum(invScale, p) % 2 == 0
  }

  /** A shift of `p` by `scale` along one axis. */
  predicate AxisStep(d: Vector3, scale: real)
  {
    d == Vector3(scale, 0.0, 0.0) || d == Vector3(0.0, scale, 0.0) || d == Vector3(0.0, 0.0, scale)
  }

  /** One cell further along an axis: `floor(inv * (a + s)) = floor(inv * a) + 1`
      when `inv * s = 1`. */
  lemma FloorStep(inv: real, a: real, s: real)
    requires inv * s == 1.0
    ensures Cell(inv, a + s) == Cell(inv, a) + 1
  {
    assert inv * (a + s) == inv * a + 1.0;
    var f := (inv * a).Floor;
    var g := (inv * a + 1.0).Floor;
    assert f as real <= inv * a < f as real + 1.0;
    assert g as real <= inv * a + 1.0 < g as real + 1.0;
  }

  /** Moving one cell along any axis moves the lattice sum by one. */
  lemma {:induction false} CellSumStep(scale: real, d: Vector3, p: Point3)
    requires scale != 0.0 && AxisStep(d, scale)
    ensures CellSum(1.0 / scale, Add(p, d)) == CellSum(1.0 / scale, p) + 1
  {
    var inv := 1.0 / scale;
    assert inv * scale == 1.0;
    if d.x == scale {
      assert Add(p, d) == Vector3(p.x + scale, p.y, p.z);
      FloorStep(inv, p.x, scale);
    } else if d.y == scale {
      assert Add(p, d) == Vector3(p.x, p.y + scale, p.z);
      FloorStep(inv, p.y, scale);
    } else {
      assert Add(p, d) == Vector3(p.x, p.y, p.z + scale);
      FloorStep(inv, p.z, scale);
    }
  }

  /** Shifting `p` by `scale` along one axis flips the parity of its cell. */
  lemma {:induction false} CheckerParityFlips(scale: real, d: Vector3, p: Point3)
    requires scale != 0.0 && AxisStep(d, scale)
    ensures EvenCell(1.0 / scale, Add(p, d)) <==> !EvenCell(1.0 / scale, p)
  {
    CellSumStep(scale, d, p);
  }

  // ----- ImageTexture -----

  /** `Interval(0, 1).clamp(x)` on a finite `x`. */
  function UnitClamp(x: real): (r: real)
    ensures 0.0 <= r <= 1.0
    ensures Fin(r) == Clamp(Interval(Fin(0.0), Fin(1.0)), Fin(x))
    ensures r < 1.0 <==> x < 1.0
    ensures r > 0.0 <==> x > 0.0
  {
    var c := Clamp(Interval(Fin(0.0), Fin(1.0)), Fin(x));
    if c.Fin? then c.r else 0.0
  }

  /** `TextureImage.clamp(x, low, high)`: both bounds are allowed results. */
  function ClampInt(x: int, low: int, high: int): (r: int)
    ensures low <= high ==> low <= r <= high
    ensures low <= x <= high ==> r == x
    ensures x < low ==> r == low
  {
    if x < low then low else if x > high then high else x
  }

  /** `pixel_data(x, y)`: the indices are clamped to `[0, width]` and
      `[0, height]`, bounds included, and the pixel is read as `data[y][x]`
      with Python indexing. */
  function PixelData(img: TextureImage, x: int, y: int): (r: Result<Color>)
  {
    var row :- PyIndex(img.data, ClampInt(y, 0, img.height));
    var px :- PyIndex(row, ClampInt(x, 0, img.width));
    Ok(Vector3(px.r as real, px.g as real, px.b as real))
  }

  /** The pixel coordinates `(i, j)` that `value` computes from `(u, v)`:
      `u` is clamped and `v` is clamped and flipped before scaling. */
  function TexelIndex(img: TextureImage, u: real, v: real): (r: (int, int))
    ensures 0 <= img.width ==> 0 <= r.0 <= img.width
    ensures 0 <= img.height ==> 0 <= r.1 <= img.height
    ensures 0 <= img.width ==> (r.0 < img.width <==> u < 1.0 && 0 < img.width)
    ensures 0 <= img.height ==> (r.1 < img.height <==> v > 0.0 && 0 < img.height)
  {
    var cu := UnitClamp(u);
    var cv := 1.0 - UnitClamp(v);
    ScaledIndex(cu, img.width);
    ScaledIndex(cv, img.height);
    (Trunc(cu * img.width as real), Trunc(cv * img.height as real))
  }

  /** A fraction `c` of a size `n` truncates to an index in `[0, n]`, which
      is below `n` exactly when `c < 1` and `n > 0`. */
  lemma {:induction false} ScaledIndex(c: real, n: int)
    requires 0.0 <= c <= 1.0
    ensures 0 <= n ==> 0 <= Trunc(c * n as real) <= n
    ensures 0 <= n ==> (Trunc(c * n as real) < n <==> c < 1.0 && 0 < n)
  {
    if n < 0 {
      return;
    }
    var x := c * n as real;
    FractionBetween(n as real, c);
    assert n as real - x == Prod(n as real, 1.0 - c);
    if c < 1.0 && 0 < n {
      MulPos(n as real, 1.0 - c);
    }
  }

  /** `ImageTexture.value`: cyan for an image of negative height, else the
      pixel at `TexelIndex`, scaled by `1/255`. */
  function ImageValue(img: TextureImage, u: real, v: real): (r: Result<Color>)
    ensures r.Raise? ==> r.error == IndexError
  {
    if img.height < 0 then Ok(Vector3(0.0, 1.0, 1.0))
    else
      var ij := TexelIndex(img, u, v);
      var pixel :- PixelData(img, ij.0, ij.1);
      var colorScale := 1.0 / 255.0;
      Ok(Vector3(colorScale * pixel.x, colorScale * pixel.y, colorScale * pixel.z))
  }

  /** The shape of a loaded image: `height` rows of `width` pixels. */
  ghost predicate WellFormed(img: TextureImage)
  {
    && 0 <= img.width && 0 <= img.height && |img.data| == img.height
    && forall y :: 0 <= y < |img.data| ==> |img.data[y]| == img.width
  }

  /** Every channel of every pixel is a byte. */
  ghost predicate Bytes(img: TextureImage)
  {
    forall y, x :: 0 <= y < |img.data| && 0 <= x < |img.data[y]| ==>
      0 <= img.data[y][x].r < 256 && 0 <= img.data[y][x].g < 256 && 0 <= img.data[y][x].b < 256
  }

  /** A negative height short-circuits to cyan whatever `(u, v)` is. */
  lemma NegativeHeightIsCyan(img: TextureImage, u: real, v: real)
    requires img.height < 0
    ensures ImageValue(img, u, v) == Ok(Vector3(0.0, 1.0, 1.0))
  {
  }

  /** On a well-formed image the lookup succeeds exactly when `u < 1`,
      `v > 0` and the image is not empty: `u == 1` selects column `width`
      and `v <= 0` row `height`, which `pixel_data`'s clamp lets through. */
  lemma {:induction false} ImageValueDefined(img: TextureImage, u: real, v: real)
    requires WellFormed(img)
    ensures ImageValue(img, u, v).Ok? <==> u < 1.0 && v > 0.0 && 0 < img.width && 0 < img.height
  {
    var ij := TexelIndex(img, u, v);
    assert ClampInt(ij.1, 0, img.height) == ij.1;
    assert ClampInt(ij.0, 0, img.width) == ij.0;
    if ij.1 < img.height {
      assert |img.data[ij.1]| == img.width;
    }
  }

  /** A successful lookup reads the pixel at `TexelIndex` and, for byte
      channels, yields a colour with every component in `[0, 1]`. */
  lemma {:induction false} ImageValueReadsTexel(img: TextureImage, u: real, v: real)
    requires WellFormed(img) && Bytes(img)
    requires ImageValue(img, u, v).Ok?
    ensures var ij := TexelIndex(img, u, v);
      && 0 <= ij.1 < img.height && 0 <= ij.0 < img.width
      && var px := img.data[ij.1][ij.0];
      ImageValue(img, u, v).value ==
        Vector3(px.r as real / 255.0, px.g as real / 255.0, px.b as real / 255.0)
    ensures var c := ImageValue(img, u, v).value;
      0.0 <= c.x <= 1.0 && 0.0 <= c.y <= 1.0 && 0.0 <= c.z <= 1.0
  {
    ImageValueDefined(img, u, v);
    var ij := TexelIndex(img, u, v);
    assert ClampInt(ij.1, 0, img.height) == ij.1;
    assert ClampInt(ij.0, 0, img.width) == ij.0;
    assert |img.data[ij.1]| == img.width;
  }

  /** The right edge `u == 1` of any non-empty well-formed image raises
      IndexError: `pixel_data` clamps the column to `width` itself. */
  lemma {:induction false} RightEdgeRaises(img: TextureImage, v: real)
    requires WellFormed(img) && 0 < img.width && 0 < img.height
    ensures ImageValue(img, 1.0, v) == Raise(IndexError)
  {
    ImageValueDefined(img, 1.0, v);
  }

  /** `clamp` as the image lookup needs it: the largest result is
      `high - 1`, the last valid index. */
  function ClampIndex(x: int, low: int, high: int): (r: int)
    requires low < high
    ensures low <= r < high
    ensures low <= x < high ==> r == x
  {
    if x < low then low else if x < high then x else high - 1
  }

  /** `pixel_data` with the last valid index as the clamp's upper end. */
  function PixelDataClamped(img: TextureImage, x: int, y: int): (r: Result<Color>)
    requires 0 < img.width && 0 < img.height
  {
    var row :- PyIndex(img.data, ClampIndex(y, 0, img.height));
    var px :- PyIndex(row, ClampIndex(x, 0, img.width));
    Ok(Vector3(px.r as real, px.g as real, px.b as real))
  }

  /** With the corrected clamp every lookup on a non-empty well-formed
      image succeeds, and it agrees with `pixel_data` wherever that one
      succeeds. */
  lemma {:induction false} PixelDataClampedTotal(img: TextureImage, x: int, y: int)
    requires WellFormed(img) && 0 < img.width && 0 < img.height
    ensures PixelDataClamped(img, x, y).Ok?
    ensures PixelData(img, x, y).Ok? ==> PixelData(img, x, y) == PixelDataClamped(img, x, y)
  {
    var cy := ClampIndex(y, 0, img.height);
    assert |img.data[cy]| == img.width;
    var wy := ClampInt(y, 0, img.height);
    if wy < img.height {
      assert |img.data[wy]| == img.width;
    }
  }

  // ----- NoiseTexture and dispatch -----

  /** `texture.value(u, v, p)`. A noise texture builds a new `Perlin` on
      every call; `pl` stands for those freshly drawn tables. Only an image
      lookup can fail. */
  function Value(tex: Texture, u: real, v: real, p: Point3, pl: Perlins.Perlin): (r: Result<Color>)
    requires Perlins.Valid(pl)
    ensures r.Raise? ==> r.error == IndexError
  {
    match tex
    case Solid(albedo) => Ok(albedo)
    case Checker(invScale, even, odd) =>
      if EvenCell(invScale, p) then Value(even, u, v, p, pl) else Value(odd, u, v, p, pl)
    case Image(img) => ImageValue(img, u, v)
    case Noise(_) => Ok(Scale(Vector3(1.0, 1.0, 1.0), Perlins.Turbulence(Perlins.NoiseOf(pl, p), 7)))
  }

  /** A solid colour is the same at every `(u, v, p)`. */
  lemma SolidIsConstant(albedo: Color, u: real, v: real, p: Point3, pl: Perlins.Perlin,
                        u': real, v': real, p': Point3)
    requires Perlins.Valid(pl)
    ensures Value(Solid(albedo), u, v, p, pl) == Value(Solid(albedo), u', v', p', pl) == Ok(albedo)
  {
  }

  /** Stepping by `scale` along one axis makes a checker built from `scale`
      take its other sub-texture. */
  lemma {:induction false} CheckerSwitches(scale: real, even: Texture, odd: Texture, d: Vector3,
                                           u: real, v: real, p: Point3, pl: Perlins.Perlin)
    requires scale != 0.0 && AxisStep(d, scale) && Perlins.Valid(pl)
    ensures var t := Checker(1.0 / scale, even, odd);
      Value(t, u, v, Add(p, d), pl) ==
        Value(if EvenCell(1.0 / scale, p) then odd else even, u, v, Add(p, d), pl)
  {
    CheckerParityFlips(scale, d, p);
  }

  /** Noise is a grey between 0 and twice `|noise(p)|`, the same for every
      `scale` and every `(u, v)`. */
  lemma {:induction false} NoiseIsGrey(scale: real, u: real, v: real, p: Point3, pl: Perlins.Perlin,
                                       scale': real, u': real, v': real)
    requires Perlins.Valid(pl)
    ensures var r := Value(Noise(scale), u, v, p, pl);
      && r.Ok? && r.value.x == r.value.y == r.value.z
      && 0.0 <= r.value.x <= 2.0 * Abs(Perlins.NoiseOf(pl, p))
      && r == Value(Noise(scale'), u', v', p, pl)
  {
    Perlins.TurbulenceClosed(Perlins.NoiseOf(pl, p), 7);
  }

  /** At a lattice point noise is black. */
  lemma {:induction false} NoiseBlackAtLattice(scale: real, u: real, v: real, p: Point3, pl: Perlins.Perlin)
    requires Perlins.Valid(pl)
    requires p.x == p.x.Floor as real && p.y == p.y.Floor as real && p.z == p.z.Floor as real
    ensures Value(Noise(scale), u, v, p, pl) == Ok(Zero)
  {
    Perlins.TurbulenceAtLattice(pl, p, 7);
  }
}
