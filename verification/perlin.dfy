/** `Perlin` noise of book2: 256 random unit vectors, three random
    permutations of 0..255 that pick one of them for each lattice corner,
    trilinear blending with Hermite weights, and the turbulence sum. The
    random draws (`random_float`, `randint`, `random_vector`) are
    parameters. */
module Perlins {
  import opened Wrappers
  import opened MathLib
  import opened Vec

  const PointCount: int := 256

  // ----- permutations -----

  /** `[i for i in range(n)]` */
  function Iota(n: nat): (r: seq<int>)
    ensures |r| == n && forall i :: 0 <= i < n ==> r[i] == i
  {
    seq(n, i => i)
  }

  /** `perm` holds each of 0..n-1 exactly once. */
  ghost predicate IsPermutation(perm: seq<int>, n: nat)
  {
    multiset(perm) == multiset(Iota(n))
  }

  /** A permutation of 0..n-1 has length n and only entries in 0..n-1, so
      every entry is a valid index into a table of n elements. */
  lemma {:induction false} PermutationBounds(perm: seq<int>, n: nat)
    requires IsPermutation(perm, n)
    ensures |perm| == n
    ensures forall i :: 0 <= i < |perm| ==> 0 <= perm[i] < n
  {
    assert |multiset(perm)| == |multiset(Iota(n))|;
    forall i | 0 <= i < |perm| ensures 0 <= perm[i] < n {
      assert perm[i] in multiset(perm);
      assert perm[i] in Iota(n);
    }
  }

  /** `p[i], p[j] = p[j], p[i]` */
  function Swap(s: seq<int>, i: int, j: int): (r: seq<int>)
    requires 0 <= i < |s| && 0 <= j < |s|
  {
    s[i := s[j]][j := s[i]]
  }

  /** A swap moves two entries and keeps the rest: the multiset of entries
      is unchanged. */
  lemma {:induction false} SwapPermutes(s: seq<int>, i: int, j: int)
    requires 0 <= i < |s| && 0 <= j < |s|
    ensures |Swap(s, i, j)| == |s|
    ensures Swap(s, i, j)[i] == s[j] && Swap(s, i, j)[j] == s[i]
    ensures forall k :: 0 <= k < |s| && k != i && k != j ==> Swap(s, i, j)[k] == s[k]
    ensures multiset(Swap(s, i, j)) == multiset(s)
  {
    if i != j {
      var t := s[i := s[j]];
      assert multiset(t) == multiset(s) - multiset{s[i]} + multiset{s[j]};
      assert multiset(t[j := s[i]]) == multiset(t) - multiset{s[j]} + multiset{s[i]};
    }
  }

  /** Python's `randint(0, k)` draws for the positions `k` a loop visits. */
  ghost predicate Draws(targets: seq<int>, n: int)
  {
    n <= |targets| && forall k :: 0 <= k < n ==> 0 <= targets[k] <= k
  }

  /** `_permute` from position `i` down to 0: position `k` is swapped with
      position `targets[k]`. */
  function ShuffleDown(s: seq<int>, i: int, targets: seq<int>): (r: seq<int>)
    requires i < |s| && Draws(targets, i + 1)
    decreases if i < 0 then 0 else i + 1
  {
    if i < 0 then s else ShuffleDown(Swap(s, i, targets[i]), i - 1, targets)
  }

  /** Shuffling only reorders: the length and the multiset stay. */
  lemma {:induction false} ShuffleDownPermutes(s: seq<int>, i: int, targets: seq<int>)
    requires i < |s| && Draws(targets, i + 1)
    ensures |ShuffleDown(s, i, targets)| == |s|
    ensures multiset(ShuffleDown(s, i, targets)) == multiset(s)
    decreases if i < 0 then 0 else i + 1
  {
    if i >= 0 {
      SwapPermutes(s, i, targets[i]);
      ShuffleDownPermutes(Swap(s, i, targets[i]), i - 1, targets);
    }
  }

  /** `_permute(p, n)`: swaps in place, for `i` from `n - 1` down to 0,
      `p[i]` with `p[randint(0, i)]`, and returns the same list. */
  method Permute(p: array<int>, n: int, targets: seq<int>) returns (r: array<int>)
    requires n <= p.Length && Draws(targets, n)
    modifies p
    ensures r == p
    ensures p[..] == ShuffleDown(old(p[..]), n - 1, targets)
    ensures multiset(p[..]) == multiset(old(p[..]))
  {
    var i := n - 1;
    while i >= 0
      invariant i <= n - 1 && i < p.Length
      invariant ShuffleDown(p[..], i, targets) == ShuffleDown(old(p[..]), n - 1, targets)
      invariant multiset(p[..]) == multiset(old(p[..]))
      decreases i + 1
    {
      var target := targets[i];
      ghost var before := p[..];
      p[i], p[target] := p[target], p[i];
      assert p[..] == Swap(before, i, target);
      SwapPermutes(before, i, target);
      i := i - 1;
    }
    r := p;
  }

  /** `_perlin_generate_perm()`: 0..255 shuffled. */
  method GeneratePerm(targets: seq<int>) returns (r: seq<int>)
    requires Draws(targets, PointCount)
    ensures r == ShuffleDown(Iota(PointCount), PointCount - 1, targets)
    ensures IsPermutation(r, PointCount)
  {
    var p := new int[PointCount](i => i);
    assert p[..] == Iota(PointCount);
    p := Permute(p, PointCount, targets);
    r := p[..];
  }

  // ----- the noise tables -----

  /** What a `Perlin()` holds. */
  datatype Perlin = Perlin(pointCount: int, randfloat: seq<real>,
                           permX: seq<int>, permY: seq<int>, permZ: seq<int>,
                           randvec: seq<Vector3>)

  /** The tables as the constructor leaves them. */
  ghost predicate Valid(pl: Perlin)
  {
    && pl.pointCount == PointCount
    && |pl.randfloat| == PointCount
    && IsPermutation(pl.permX, PointCount)
    && IsPermutation(pl.permY, PointCount)
    && IsPermutation(pl.permZ, PointCount)
    && |pl.randvec| == PointCount
    && forall i :: 0 <= i < |pl.randvec| ==> LengthSquared(pl.randvec[i]) == 1.0
  }

  /** `Perlin()`: `floats` are the `random_float()` draws, `tx`, `ty`, `tz`
      the `randint` draws of the three shuffles and `vecs` the
      `random_vector(-1, 1)` draws, each made a unit vector. */
  method NewPerlin(m: Oracle, floats: seq<real>, tx: seq<int>, ty: seq<int>, tz: seq<int>, vecs: seq<Vector3>)
    returns (pl: Perlin)
    requires Lawful(m)
    requires |floats| == PointCount && forall i :: 0 <= i < |floats| ==> 0.0 <= floats[i] < 1.0
    requires Draws(tx, PointCount) && Draws(ty, PointCount) && Draws(tz, PointCount)
    requires |vecs| == PointCount && forall i :: 0 <= i < |vecs| ==> vecs[i] != Zero
    ensures Valid(pl)
    ensures pl.randfloat == floats
    ensures pl.permX == ShuffleDown(Iota(PointCount), PointCount - 1, tx)
    ensures pl.permY == ShuffleDown(Iota(PointCount), PointCount - 1, ty)
    ensures pl.permZ == ShuffleDown(Iota(PointCount), PointCount - 1, tz)
    ensures |pl.randvec| == PointCount && forall i :: 0 <= i < PointCount ==> pl.randvec[i] == UnitVector(m, vecs[i])
  {
    var permX := GeneratePerm(tx);
    var permY := GeneratePerm(ty);
    var permZ := GeneratePerm(tz);
    var randvec := seq(PointCount, i requires 0 <= i < PointCount => UnitVector(m, vecs[i]));
    pl := Perlin(PointCount, floats, permX, permY, permZ, randvec);
  }

  // ----- noise -----

  /** `x - floor(x)`: the offset of `x` in its lattice cell. */
  function Offset(x: real): (r: real)
    ensures 0.0 <= r < 1.0
    ensures x == x.Floor as real + r
  {
    x - x.Floor as real
  }

  /** `n & 255` on a Python int: the two's complement of a negative `n` is
      masked, which is the remainder modulo 256 for every `n`. */
  function Mask(n: int): (r: int)
    ensures 0 <= r < PointCount
    ensures (n - r) % PointCount == 0
  {
    n % PointCount
  }

  /** `a ^ b ^ c` on three ints in 0..255: the bitwise exclusive or, which
      stays in 0..255. */
  function Xor(a: int, b: int, c: int): (r: int)
    requires 0 <= a < 256 && 0 <= b < 256 && 0 <= c < 256
    ensures 0 <= r < PointCount
  {
    ((a as bv8) ^ (b as bv8) ^ (c as bv8)) as int
  }

  /** The `randvec` entry for the lattice corner `(i + di, j + dj, k + dk)`. */
  function CornerIndex(pl: Perlin, i: int, j: int, k: int): (r: int)
    requires Valid(pl)
    ensures 0 <= r < |pl.randvec|
  {
    PermutationBounds(pl.permX, PointCount);
    PermutationBounds(pl.permY, PointCount);
    PermutationBounds(pl.permZ, PointCount);
    Xor(pl.permX[Mask(i)], pl.permY[Mask(j)], pl.permZ[Mask(k)])
  }

  /** The 2x2x2 corner vectors `c` of the cell whose low corner is
      `(i, j, k)`. */
  function Corners(pl: Perlin, i: int, j: int, k: int): (c: seq<seq<seq<Vector3>>>)
    requires Valid(pl)
    ensures |c| == 2 && forall a :: 0 <= a < 2 ==> |c[a]| == 2 && forall b :: 0 <= b < 2 ==> |c[a][b]| == 2
  {
    seq(2, di => seq(2, dj => seq(2, dk => pl.randvec[CornerIndex(pl, i + di, j + dj, k + dk)])))
  }

  /** `t * t * (3 - 2 * t)`, the Hermite weight. */
  function Hermite(t: real): real
  {
    t * t * (3.0 - 2.0 * t)
  }

  /** The weight runs from 0 at `t = 0` to 1 at `t = 1`, staying in
      between. */
  lemma {:induction false} HermiteRange(t: real)
    ensures Hermite(0.0) == 0.0 && Hermite(1.0) == 1.0
    ensures 0.0 <= t <= 1.0 ==> 0.0 <= Hermite(t) <= 1.0
  {
    if 0.0 <= t <= 1.0 {
      MulNonNeg(t, t);
      FractionBetween(1.0, t);
      assert t * t <= t by { FractionBetween(t, t); }
      MulNonNeg(Prod(t, t), 3.0 - 2.0 * t);
      assert Hermite(t) == Prod(t, t) * (3.0 - 2.0 * t);
      assert 1.0 - Hermite(t) == (1.0 - t) * (1.0 - t) * (1.0 + 2.0 * t);
      MulNonNeg(1.0 - t, 1.0 - t);
      MulNonNeg(Prod(1.0 - t, 1.0 - t), 1.0 + 2.0 * t);
    }
  }

  /** `i * h + (1 - i) * (1 - h)` for a corner coordinate `i` of 0 or 1. */
  function Blend(i: int, h: real): real
  {
    i as real * h + (1.0 - i as real) * (1.0 - h)
  }

  /** The loop body of `_perlin_interp` for corner `(i, j, k)`. */
  function Term(c: seq<seq<seq<Vector3>>>, u: real, v: real, w: real, uu: real, vv: real, ww: real,
                i: int, j: int, k: int): real
    requires 0 <= i < |c| && 0 <= j < |c[i]| && 0 <= k < |c[i][j]|
  {
    Blend(i, uu) * Blend(j, vv) * Blend(k, ww) * Dot(Vector3(u - i as real, v - j as real, w - k as real), c[i][j][k])
  }

  lemma TermIs(c: seq<seq<seq<Vector3>>>, u: real, v: real, w: real, uu: real, vv: real, ww: real,
               i: int, j: int, k: int, weight: Vector3)
    requires 0 <= i < |c| && 0 <= j < |c[i]| && 0 <= k < |c[i][j]|
    requires weight == Vector3(u - i as real, v - j as real, w - k as real)
    ensures Term(c, u, v, w, uu, vv, ww, i, j, k) == Blend(i, uu) * Blend(j, vv) * Blend(k, ww) * Dot(weight, c[i][j][k])
  {
  }

  ghost predicate Cube(c: seq<seq<seq<Vector3>>>)
  {
    |c| == 2 && forall a :: 0 <= a < 2 ==> |c[a]| == 2 && forall b :: 0 <= b < 2 ==> |c[a][b]| == 2
  }

  /** The loop sums of `_perlin_interp`, innermost first: the bodies for
      `k < kEnd` at fixed `(i, j)`, then the rows `j < jEnd` at fixed `i`,
      then the planes `i < iEnd`. */
  function SumK(c: seq<seq<seq<Vector3>>>, u: real, v: real, w: real, uu: real, vv: real, ww: real,
                i: int, j: int, kEnd: int): real
    requires Cube(c) && 0 <= i < 2 && 0 <= j < 2 && 0 <= kEnd <= 2
  {
    if kEnd == 0 then 0.0
    else SumK(c, u, v, w, uu, vv, ww, i, j, kEnd - 1) + Term(c, u, v, w, uu, vv, ww, i, j, kEnd - 1)
  }

  function SumJ(c: seq<seq<seq<Vector3>>>, u: real, v: real, w: real, uu: real, vv: real, ww: real,
                i: int, jEnd: int): real
    requires Cube(c) && 0 <= i < 2 && 0 <= jEnd <= 2
  {
    if jEnd == 0 then 0.0
    else SumJ(c, u, v, w, uu, vv, ww, i, jEnd - 1) + SumK(c, u, v, w, uu, vv, ww, i, jEnd - 1, |c[i][jEnd - 1]|)
  }

  function SumI(c: seq<seq<seq<Vector3>>>, u: real, v: real, w: real, uu: real, vv: real, ww: real,
                iEnd: int): real
    requires Cube(c) && 0 <= iEnd <= 2
  {
    if iEnd == 0 then 0.0
    else SumI(c, u, v, w, uu, vv, ww, iEnd - 1) + SumJ(c, u, v, w, uu, vv, ww, iEnd - 1, |c[iEnd - 1]|)
  }

  /** `_perlin_interp(c, u, v, w)` as a value: the sum over the eight
      corners, with the Hermite weights of the three offsets. */
  function Interp(c: seq<seq<seq<Vector3>>>, u: real, v: real, w: real): real
    requires Cube(c)
  {
    SumI(c, u, v, w, Hermite(u), Hermite(v), Hermite(w), |c|)
  }

  /** `_perlin_interp(c, u, v, w)`: the corner vectors dotted with the
      offsets from their corners, blended with Hermite weights. */
  method PerlinInterp(c: seq<seq<seq<Vector3>>>, u: real, v: real, w: real) returns (accum: real)
    requires Cube(c)
    ensures accum == Interp(c, u, v, w)
  {
    var uu := Hermite(u);
    var vv := Hermite(v);
    var ww := Hermite(w);
    accum := 0.0;
    for i := 0 to 2
      invariant accum == SumI(c, u, v, w, uu, vv, ww, i)
    {
      for j := 0 to 2
        invariant accum == SumI(c, u, v, w, uu, vv, ww, i) + SumJ(c, u, v, w, uu, vv, ww, i, j)
      {
        for k := 0 to 2
          invariant accum == SumI(c, u, v, w, uu, vv, ww, i) + SumJ(c, u, v, w, uu, vv, ww, i, j)
                             + SumK(c, u, v, w, uu, vv, ww, i, j, k)
        {
          var weight := Vector3(u - i as real, v - j as real, w - k as real);
          TermIs(c, u, v, w, uu, vv, ww, i, j, k, weight);
          accum := accum + Blend(i, uu) * Blend(j, vv) * Blend(k, ww) * Dot(weight, c[i][j][k]);
        }
      }
    }
  }

  /** `noise(p)` */
  function NoiseOf(pl: Perlin, p: Vector3): real
    requires Valid(pl)
  {
    Interp(Corners(pl, p.x.Floor, p.y.Floor, p.z.Floor), Offset(p.x), Offset(p.y), Offset(p.z))
  }

  /** `noise(p)`: fills the corner vectors of `p`'s cell in three nested
      loops and blends them. The list `c` starts as placeholders, every one
      of which the loops overwrite. */
  method Noise(pl: Perlin, p: Vector3) returns (r: real)
    requires Valid(pl)
    ensures r == NoiseOf(pl, p)
  {
    var u := p.x - p.x.Floor as real;
    var v := p.y - p.y.Floor as real;
    var w := p.z - p.z.Floor as real;
    var i := p.x.Floor;
    var j := p.y.Floor;
    var k := p.z.Floor;
    ghost var target := Corners(pl, i, j, k);
    var c := [[[Zero, Zero], [Zero, Zero]], [[Zero, Zero], [Zero, Zero]]];
    for di := 0 to 2
      invariant Cube(c)
      invariant forall a, b, d :: 0 <= a < di && 0 <= b < 2 && 0 <= d < 2 ==> c[a][b][d] == target[a][b][d]
    {
      for dj := 0 to 2
        invariant Cube(c)
        invariant forall a, b, d :: 0 <= a < di && 0 <= b < 2 && 0 <= d < 2 ==> c[a][b][d] == target[a][b][d]
        invariant forall b, d :: 0 <= b < dj && 0 <= d < 2 ==> c[di][b][d] == target[di][b][d]
      {
        for dk := 0 to 2
          invariant Cube(c)
          invariant forall a, b, d :: 0 <= a < di && 0 <= b < 2 && 0 <= d < 2 ==> c[a][b][d] == target[a][b][d]
          invariant forall b, d :: 0 <= b < dj && 0 <= d < 2 ==> c[di][b][d] == target[di][b][d]
          invariant forall d :: 0 <= d < dk ==> c[di][dj][d] == target[di][dj][d]
        {
          var corner := pl.randvec[CornerIndex(pl, i + di, j + dj, k + dk)];
          c := c[di := c[di][dj := c[di][dj][dk := corner]]];
        }
      }
    }
    forall a | 0 <= a < 2 ensures c[a] == target[a] {
      assert c[a][0] == target[a][0] && c[a][1] == target[a][1];
    }
    assert c == target;
    r := PerlinInterp(c, u, v, w);
  }

  /** Noise vanishes at the lattice points: there every blend weight but
      the one of the point's own corner is 0, and that corner's offset is
      the zero vector. */
  lemma {:induction false} InterpAtCorner(c: seq<seq<seq<Vector3>>>)
    requires Cube(c)
    ensures Interp(c, 0.0, 0.0, 0.0) == 0.0
  {
    HermiteRange(0.0);
    forall i, j | 0 <= i < 2 && 0 <= j < 2
      ensures SumK(c, 0.0, 0.0, 0.0, 0.0, 0.0, 0.0, i, j, 2) == 0.0
    {
      TermAtOrigin(c, i, j, 0);
      TermAtOrigin(c, i, j, 1);
      assert SumK(c, 0.0, 0.0, 0.0, 0.0, 0.0, 0.0, i, j, 1) == 0.0;
    }
    forall i | 0 <= i < 2 ensures SumJ(c, 0.0, 0.0, 0.0, 0.0, 0.0, 0.0, i, 2) == 0.0 {
      assert SumJ(c, 0.0, 0.0, 0.0, 0.0, 0.0, 0.0, i, 1) == 0.0;
    }
    assert SumI(c, 0.0, 0.0, 0.0, 0.0, 0.0, 0.0, 1) == 0.0;
  }

  lemma TermAtOrigin(c: seq<seq<seq<Vector3>>>, i: int, j: int, k: int)
    requires Cube(c) && 0 <= i < 2 && 0 <= j < 2 && 0 <= k < 2
    ensures Term(c, 0.0, 0.0, 0.0, 0.0, 0.0, 0.0, i, j, k) == 0.0
  {
    TermVanishes(c, 0.0, i, j, k);
  }

  lemma TermVanishes(c: seq<seq<seq<Vector3>>>, z: real, i: int, j: int, k: int)
    requires Cube(c) && 0 <= i < 2 && 0 <= j < 2 && 0 <= k < 2 && z == 0.0
    ensures Term(c, z, z, z, z, z, z, i, j, k) == 0.0
  {
    var f := Blend(i, z) * Blend(j, z) * Blend(k, z);
    var d := Dot(Vector3(z - i as real, z - j as real, z - k as real), c[i][j][k]);
    assert Term(c, z, z, z, z, z, z, i, j, k) == f * d;
    if i == 0 && j == 0 && k == 0 {
      assert d == 0.0;
    } else {
      assert f == 0.0;
    }
  }

  lemma {:induction false} NoiseAtLattice(pl: Perlin, p: Vector3)
    requires Valid(pl)
    requires p.x == p.x.Floor as real && p.y == p.y.Floor as real && p.z == p.z.Floor as real
    ensures NoiseOf(pl, p) == 0.0
  {
    InterpAtCorner(Corners(pl, p.x.Floor, p.y.Floor, p.z.Floor));
  }

  // ----- turbulence -----

  /** `0.5 ** n` */
  function Half(n: nat): (r: real)
    ensures 0.0 < r <= 1.0
  {
    if n == 0 then 1.0 else Half(n - 1) * 0.5
  }

  /** The state of `turb`'s loop after `n` octaves, `(accum, weight)`, when
      `noise(p)` is `x`: every octave samples the same point (the doubled
      `tmp` is never read). */
  function Octaves(x: real, n: nat): (real, real)
  {
    if n == 0 then (0.0, 1.0)
    else (Octaves(x, n - 1).0 + Octaves(x, n - 1).1 * x, Octaves(x, n - 1).1 * 0.5)
  }

  /** `turb(p, depth)` when `noise(p)` is `x`: `range(depth)` is empty for
      a depth of 0 or below. */
  function Turbulence(x: real, depth: int): real
  {
    Abs(Octaves(x, if depth < 0 then 0 else depth).0)
  }

  /** After `n` octaves the weight is `0.5 ** n` and the sum is `x` times
      the geometric series `2 - 2 * 0.5 ** n`. */
  lemma {:induction false} OctavesClosed(x: real, n: nat)
    ensures Octaves(x, n).1 == Half(n)
    ensures Octaves(x, n).0 == x * (2.0 - 2.0 * Half(n))
  {
    if n > 0 {
      OctavesClosed(x, n - 1);
      var h := Half(n - 1);
      assert x * (2.0 - 2.0 * h) + h * x == x * (2.0 - 2.0 * (h * 0.5));
    }
  }

  /** Turbulence is `|noise(p)|` scaled by the partial geometric series:
      never negative, 0 with no octaves, and below `2 * |noise(p)|`. */
  lemma {:induction false} TurbulenceClosed(x: real, depth: int)
    ensures depth <= 0 ==> Turbulence(x, depth) == 0.0
    ensures depth > 0 ==> Turbulence(x, depth) == Abs(x) * (2.0 - 2.0 * Half(depth))
    ensures 0.0 <= Turbulence(x, depth) <= 2.0 * Abs(x)
  {
    var d := if depth < 0 then 0 else depth;
    OctavesClosed(x, d);
    var g := 2.0 - 2.0 * Half(d);
    assert 0.0 <= g < 2.0;
    if x >= 0.0 {
      MulNonNeg(x, g);
      assert Abs(x * g) == Abs(x) * g;
    } else {
      MulNonNeg(-x, g);
      assert Abs(x * g) == Abs(x) * g;
    }
    FractionBetween(Abs(x), g / 2.0);
    assert Abs(x) * g == 2.0 * (Abs(x) * (g / 2.0));
  }

  /** One more octave adds `weight * noise(p)` and halves the weight. */
  lemma OctaveStep(x: real, i: nat, accum: real, weight: real, n: real)
    requires accum == Octaves(x, i).0 && weight == Octaves(x, i).1 && n == x
    ensures accum + weight * n == Octaves(x, i + 1).0 && weight * 0.5 == Octaves(x, i + 1).1
  {
  }

  /** `turb(p, depth)`: sums `weight * noise(p)` over the octaves, halving
      the weight each time, and returns the absolute value. */
  method Turb(pl: Perlin, p: Vector3, depth: int) returns (r: real)
    requires Valid(pl)
    ensures r == Turbulence(NoiseOf(pl, p), depth)
  {
    ghost var x := NoiseOf(pl, p);
    var accum := 0.0;
    var weight := 1.0;
    var tmp := p;
    var i := 0;
    while i < depth
      invariant 0 <= i <= (if depth < 0 then 0 else depth)
      invariant accum == Octaves(x, i).0 && weight == Octaves(x, i).1
    {
      var n := Noise(pl, p);
      OctaveStep(x, i, accum, weight, n);
      accum := accum + weight * n;
      weight := weight * 0.5;
      tmp := Scale(tmp, 2.0);
      i := i + 1;
    }
    assert i == if depth < 0 then 0 else depth;
    r := Abs(accum);
  }

  /** At a lattice point turbulence is 0 at every depth. */
  lemma TurbulenceAtLattice(pl: Perlin, p: Vector3, depth: int)
    requires Valid(pl)
    requires p.x == p.x.Floor as real && p.y == p.y.Floor as real && p.z == p.z.Floor as real
    ensures Turbulence(NoiseOf(pl, p), depth) == 0.0
  {
    NoiseAtLattice(pl, p);
    TurbulenceClosed(0.0, depth);
  }
}

