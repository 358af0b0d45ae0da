/**
 * The arithmetic of `src/prod/js/scalarField.ts`: the grid length, the
 * coordinate maps `normalize`, `denormalize` and `wrap`, the memory layout
 * the sampling loop of `doSample` writes, and the weights and strides of
 * `get`.
 *
 * A grid of resolution `res` has `res + 1` points along each axis. Point
 * `(x, y, z)` occupies eight consecutive float64 slots: its normalized
 * position `(x, y, z, 1)` followed by the four values the sampler returns
 * there. Points are stored with `x` varying fastest and `z` slowest.
 */
module FieldGrid {

  /** What a sampler returns: four values. */
  type Sample = (real, real, real, real)

  /** A sampler, called with a normalized position and `w = 1`. */
  type Sampler = (real, real, real, real) -> Sample

  // ---------------------------------------------------------------------
  // Grid length
  // ---------------------------------------------------------------------

  /** `length` in `doSample`: `(res + 1)^3` points, each of two four-component vectors. */
  function GridLength(resolution: int): (r: int)
    ensures resolution >= 0 ==> r >= 8
  {
    var n := resolution + 1;
    LengthPositive(n);
    (n * n * n) * 2 * 4
  }

  lemma LengthPositive(n: int)
    ensures n >= 1 ==> n * n * n >= 1
  {
    if n >= 1 {
      assert n * n >= 1;
      assert (n * n) * n >= 1;
    }
  }

  // ---------------------------------------------------------------------
  // Coordinates
  // ---------------------------------------------------------------------

  /** `normalize`: grid index `x` to the cube `[-1, 1]`; 0 goes to -1 and `res` to 1. */
  function Normalize(resolution: real, x: real): (r: real)
    requires resolution != 0.0
    ensures x == 0.0 ==> r == -1.0
    ensures x == resolution ==> r == 1.0
  {
    2.0 * (x / resolution) - 1.0
  }

  /** `normalize` maps the grid's range `[0, res]` into the cube. */
  lemma NormalizeRange(resolution: real, x: real)
    requires resolution > 0.0 && 0.0 <= x <= resolution
    ensures -1.0 <= Normalize(resolution, x) <= 1.0
  {
    var q := x / resolution;
    assert q * resolution == x;
    assert 0.0 <= q <= 1.0;
  }

  /** `Math.trunc`: the integer part, rounded toward zero. */
  function Trunc(x: real): (r: int)
    ensures x >= 0.0 ==> r as real <= x < r as real + 1.0
    ensures x < 0.0 ==> r as real - 1.0 < x <= r as real
  {
    if x >= 0.0 then x.Floor else -((-x).Floor)
  }

  /** JavaScript's `x % 1`: the fractional part, with the sign of `x`. */
  function RemainderOne(x: real): (r: real)
    ensures x >= 0.0 ==> 0.0 <= r < 1.0
    ensures x < 0.0 ==> -1.0 < r <= 0.0
    ensures (x - r).Floor as real == x - r
  {
    x - Trunc(x) as real
  }

  /**
   * `wrap`: the identity on `[-1, 1]`; outside it, the fractional part
   * shifted into the cube, so that the result differs from `x` by an integer.
   */
  function Wrap(x: real): (r: real)
    ensures -1.0 <= r <= 1.0
    ensures -1.0 <= x <= 1.0 ==> r == x
    ensures (x - r).Floor as real == x - r
  {
    if x > 1.0 then
      var f := RemainderOne(x);
      IntegerShift(x - f, 1);
      f - 1.0
    else if x < -1.0 then
      var f := RemainderOne(x);
      IntegerShift(x - f, -1);
      f + 1.0
    else x
  }

  /** An integer plus an integer is an integer. */
  lemma IntegerShift(a: real, k: int)
    requires a.Floor as real == a
    ensures (a + k as real).Floor as real == a + k as real
  {
    assert a + k as real == (a.Floor + k) as real;
  }

  /** `denormalize`: a coordinate, wrapped into the cube, back to a grid coordinate in `[0, res]`. */
  function Denormalize(resolution: real, x: real): (r: real)
    ensures resolution >= 0.0 ==> 0.0 <= r <= resolution
  {
    var t := Wrap(x) + 1.0;
    HalfScaled(resolution, t);
    resolution * t / 2.0
  }

  lemma HalfScaled(a: real, t: real)
    requires 0.0 <= t <= 2.0
    ensures a >= 0.0 ==> 0.0 <= a * t / 2.0 <= a
  {
    if a >= 0.0 {
      assert a * t <= a * 2.0;
    }
  }

  /** `denormalize` undoes `normalize` on the grid's range. */
  lemma DenormalizeNormalize(resolution: real, i: real)
    requires resolution > 0.0 && 0.0 <= i <= resolution
    ensures Denormalize(resolution, Normalize(resolution, i)) == i
  {
    NormalizeRange(resolution, i);
    var q := i / resolution;
    var n := Normalize(resolution, i);
    assert Wrap(n) + 1.0 == 2.0 * q;
    Unscale(resolution, q, i);
  }

  /** Halving `a * (2 q)`, with `q = i / a`, gives back `i`. */
  lemma Unscale(a: real, q: real, i: real)
    requires a != 0.0 && q == i / a
    ensures a * (2.0 * q) / 2.0 == i
  {
    assert q * a == i;
    assert a * (2.0 * q) / 2.0 == a * q;
  }

  /** `normalize` undoes `denormalize` inside the cube. */
  lemma NormalizeDenormalize(resolution: real, x: real)
    requires resolution != 0.0 && -1.0 <= x <= 1.0
    ensures Normalize(resolution, Denormalize(resolution, x)) == x
  {
    var d := Denormalize(resolution, x);
    Rescale(resolution, x + 1.0, d);
  }

  /** `a * s / 2`, divided by `a`, is `s / 2`. */
  lemma Rescale(a: real, s: real, d: real)
    requires a != 0.0 && d == a * s / 2.0
    ensures d / a == s / 2.0
  {
    var t := s / 2.0;
    assert d == a * t;
    assert (a * t) / a == t;
  }

  // ---------------------------------------------------------------------
  // Layout of the sampled grid
  // ---------------------------------------------------------------------

  /**
   * The eight slots of grid point `(x, y, z)` in a grid of `n = res + 1`
   * points per axis: its normalized position with `w = 1`, then the
   * sampler's values there.
   */
  function Point(n: nat, sampler: Sampler, x: nat, y: nat, z: nat): (r: seq<real>)
    requires n >= 2
    ensures |r| == 8
  {
    var res := (n - 1) as real;
    var nx, ny, nz := Normalize(res, x as real), Normalize(res, y as real), Normalize(res, z as real);
    var f := sampler(nx, ny, nz, 1.0);
    [nx, ny, nz, 1.0, f.0, f.1, f.2, f.3]
  }

  /** A grid point holds a position inside the cube, `w = 1`, and the sampler's values at that position. */
  lemma PointContents(n: nat, sampler: Sampler, x: nat, y: nat, z: nat)
    requires n >= 2 && x < n && y < n && z < n
    ensures var r := Point(n, sampler, x, y, z);
      && -1.0 <= r[0] <= 1.0 && -1.0 <= r[1] <= 1.0 && -1.0 <= r[2] <= 1.0 && r[3] == 1.0
      && sampler(r[0], r[1], r[2], r[3]) == (r[4], r[5], r[6], r[7])
  {
    var res := (n - 1) as real;
    NormalizeRange(res, x as real);
    NormalizeRange(res, y as real);
    NormalizeRange(res, z as real);
  }

  /** Blocks written one after another. */
  function Flatten(blocks: seq<seq<real>>): (r: seq<real>)
  {
    if |blocks| == 0 then [] else Flatten(blocks[..|blocks| - 1]) + blocks[|blocks| - 1]
  }

  /** Every block is `size` slots long. */
  predicate Uniform(blocks: seq<seq<real>>, size: nat) {
    forall b :: 0 <= b < |blocks| ==> |blocks[b]| == size
  }

  lemma {:induction false} FlattenLength(blocks: seq<seq<real>>, size: nat)
    requires Uniform(blocks, size)
    ensures |Flatten(blocks)| == size * |blocks|
  {
    if |blocks| > 0 {
      FlattenLength(blocks[..|blocks| - 1], size);
      assert size * (|blocks| - 1) + size == size * |blocks|;
    }
  }

  lemma FlattenAppend(blocks: seq<seq<real>>, block: seq<real>)
    ensures Flatten(blocks + [block]) == Flatten(blocks) + block
  {
    assert (blocks + [block])[..|blocks|] == blocks;
  }

  /** Slot `i` of block `b` is slot `size * b + i` of the whole. */
  lemma {:induction false} FlattenSlot(blocks: seq<seq<real>>, size: nat, b: nat, i: nat)
    requires Uniform(blocks, size) && b < |blocks| && i < size
    ensures size * b + i < |Flatten(blocks)|
    ensures Flatten(blocks)[size * b + i] == blocks[b][i]
  {
    var front := blocks[..|blocks| - 1];
    FlattenLength(front, size);
    FlattenLength(blocks, size);
    if b < |blocks| - 1 {
      RowMajorBelow(b, |blocks| - 1, size, i);
      FlattenSlot(front, size, b, i);
      assert front[b] == blocks[b];
    } else {
      assert size * b + i == |Flatten(front)| + i;
    }
  }

  /** The first `count` points of row `(y, z)`, `x` ascending. */
  function Row(n: nat, sampler: Sampler, y: nat, z: nat, count: nat): (r: seq<seq<real>>)
    requires n >= 2
    ensures |r| == count && Uniform(r, 8)
  {
    seq(count, x requires 0 <= x => Point(n, sampler, x, y, z))
  }

  /** The first `count` rows of plane `z`, `y` ascending. */
  function Plane(n: nat, sampler: Sampler, z: nat, count: nat): (r: seq<seq<real>>)
    requires n >= 2
    ensures |r| == count && Uniform(r, 8 * n)
  {
    seq(count, y requires 0 <= y => RowSlots(n, sampler, y, z))
  }

  /** The first `count` planes of the grid, `z` ascending. */
  function Grid(n: nat, sampler: Sampler, count: nat): (r: seq<seq<real>>)
    requires n >= 2
    ensures |r| == count && Uniform(r, 8 * n * n)
  {
    seq(count, z requires 0 <= z => PlaneSlots(n, sampler, z))
  }

  /** A whole row, written out. */
  function RowSlots(n: nat, sampler: Sampler, y: nat, z: nat): (r: seq<real>)
    requires n >= 2
    ensures |r| == 8 * n
  {
    RowPrefix(n, sampler, y, z, n)
  }

  /** A whole plane, written out. */
  function PlaneSlots(n: nat, sampler: Sampler, z: nat): (r: seq<real>)
    requires n >= 2
    ensures |r| == 8 * n * n
  {
    PlanePrefix(n, sampler, z, n)
  }

  /** The first `count` points of row `(y, z)`, written out. */
  function RowPrefix(n: nat, sampler: Sampler, y: nat, z: nat, count: nat): (r: seq<real>)
    requires n >= 2
    ensures |r| == 8 * count
  {
    FlattenLength(Row(n, sampler, y, z, count), 8);
    Flatten(Row(n, sampler, y, z, count))
  }

  /** The first `count` rows of plane `z`, written out. */
  function PlanePrefix(n: nat, sampler: Sampler, z: nat, count: nat): (r: seq<real>)
    requires n >= 2
    ensures |r| == (8 * n) * count
  {
    FlattenLength(Plane(n, sampler, z, count), 8 * n);
    Flatten(Plane(n, sampler, z, count))
  }

  /** The first `count` planes, written out. */
  function GridPrefix(n: nat, sampler: Sampler, count: nat): (r: seq<real>)
    requires n >= 2
    ensures |r| == (8 * n * n) * count
  {
    FlattenLength(Grid(n, sampler, count), 8 * n * n);
    Flatten(Grid(n, sampler, count))
  }

  /** One more point written out is the next row prefix. */
  lemma RowPrefixGrows(n: nat, sampler: Sampler, y: nat, z: nat, count: nat)
    requires n >= 2
    ensures RowPrefix(n, sampler, y, z, count + 1) == RowPrefix(n, sampler, y, z, count) + Point(n, sampler, count, y, z)
  {
    var a := Row(n, sampler, y, z, count + 1);
    var b := Row(n, sampler, y, z, count) + [Point(n, sampler, count, y, z)];
    assert forall x :: 0 <= x < |a| ==> a[x] == b[x];
    assert a == b;
    FlattenAppend(Row(n, sampler, y, z, count), Point(n, sampler, count, y, z));
    assert Flatten(a) == Flatten(Row(n, sampler, y, z, count)) + Point(n, sampler, count, y, z);
  }

  /** One more row written out is the next plane prefix. */
  lemma PlanePrefixGrows(n: nat, sampler: Sampler, z: nat, count: nat)
    requires n >= 2
    ensures PlanePrefix(n, sampler, z, count + 1) == PlanePrefix(n, sampler, z, count) + RowSlots(n, sampler, count, z)
  {
    var a := Plane(n, sampler, z, count + 1);
    var b := Plane(n, sampler, z, count) + [RowSlots(n, sampler, count, z)];
    assert forall y :: 0 <= y < |a| ==> a[y] == b[y];
    assert a == b;
    FlattenAppend(Plane(n, sampler, z, count), RowSlots(n, sampler, count, z));
    assert Flatten(a) == Flatten(Plane(n, sampler, z, count)) + RowSlots(n, sampler, count, z);
  }

  /** One more plane written out is the next grid prefix. */
  lemma GridPrefixGrows(n: nat, sampler: Sampler, count: nat)
    requires n >= 2
    ensures GridPrefix(n, sampler, count + 1) == GridPrefix(n, sampler, count) + PlaneSlots(n, sampler, count)
  {
    var a := Grid(n, sampler, count + 1);
    var b := Grid(n, sampler, count) + [PlaneSlots(n, sampler, count)];
    assert forall z :: 0 <= z < |a| ==> a[z] == b[z];
    assert a == b;
    FlattenAppend(Grid(n, sampler, count), PlaneSlots(n, sampler, count));
    assert Flatten(a) == Flatten(Grid(n, sampler, count)) + PlaneSlots(n, sampler, count);
  }

  /** The whole grid of `n` points per axis, written out. */
  function Cube(n: nat, sampler: Sampler): (r: seq<real>)
    requires n >= 2
  {
    GridPrefix(n, sampler, n)
  }

  /** What `doSample` writes: every point of the grid, `z` outermost and `x` innermost. */
  function Layout(resolution: nat, sampler: Sampler): (r: seq<real>)
    requires resolution >= 1
    ensures |r| == GridLength(resolution)
  {
    GridLengthCube(resolution);
    Cube(resolution + 1, sampler)
  }

  lemma GridLengthCube(resolution: int)
    ensures GridLength(resolution) == 8 * (resolution + 1) * (resolution + 1) * (resolution + 1)
  {
  }

  /** The first slot of grid point `(x, y, z)` in a grid of `n` points per axis. */
  function SlotIndex(n: nat, x: nat, y: nat, z: nat): (k: nat) {
    assert 8 * n * n >= 0 && (8 * n * n) * z >= 0 && (8 * n) * y >= 0;
    (8 * n * n) * z + (8 * n) * y + 8 * x
  }

  /** `a * n + x < b * n` when `a < b` and `x < n`. */
  lemma RowMajorBelow(a: int, b: int, n: int, x: int)
    requires 0 <= a < b && 0 <= x < n
    ensures a * n + x < b * n
  {
    assert a * n + x < a * n + n == (a + 1) * n;
    assert (a + 1) * n <= b * n;
  }

  /** The plane, row and point offsets add up to the row-major index of the point, times 8. */
  lemma SlotIndexRowMajor(n: nat, x: nat, y: nat, z: nat)
    ensures SlotIndex(n, x, y, z) == 8 * ((z * n + y) * n + x)
  {
  }

  /**
   * Grid point `(x, y, z)` occupies the eight slots from
   * `8 * ((z * (res + 1) + y) * (res + 1) + x)` on: its normalized position,
   * `1`, and the sampler's four values at that position.
   */
  lemma LayoutSlot(resolution: nat, sampler: Sampler, x: nat, y: nat, z: nat, j: nat)
    requires resolution >= 1 && x <= resolution && y <= resolution && z <= resolution && j < 8
    ensures SlotIndex(resolution + 1, x, y, z) + j < |Layout(resolution, sampler)|
    ensures Layout(resolution, sampler)[SlotIndex(resolution + 1, x, y, z) + j] == Point(resolution + 1, sampler, x, y, z)[j]
  {
    CubeSlot(resolution + 1, sampler, x, y, z, j);
  }

  lemma CubeSlot(n: nat, sampler: Sampler, x: nat, y: nat, z: nat, j: nat)
    requires n >= 2 && x < n && y < n && z < n && j < 8
    ensures SlotIndex(n, x, y, z) + j < |Cube(n, sampler)|
    ensures Cube(n, sampler)[SlotIndex(n, x, y, z) + j] == Point(n, sampler, x, y, z)[j]
  {
    ProductOfNats(8 * n, y);
    var i := (8 * n) * y + (8 * x + j);
    PlaneSlot(n, sampler, z, y, x, j);
    CubeBlock(n, sampler, z, i);
    SlotIndexSplit(n, x, y, z, j);
  }

  lemma ProductOfNats(a: nat, b: nat)
    ensures a * b >= 0
  {
  }

  /** The slot index regrouped as plane offset plus offset within the plane. */
  lemma SlotIndexSplit(n: nat, x: nat, y: nat, z: nat, j: nat)
    ensures SlotIndex(n, x, y, z) + j == (8 * n * n) * z + ((8 * n) * y + (8 * x + j))
  {
  }

  /** Slot `i` of plane `z` within the whole grid. */
  lemma CubeBlock(n: nat, sampler: Sampler, z: nat, i: nat)
    requires n >= 2 && z < n && i < 8 * n * n
    ensures 0 <= (8 * n * n) * z + i < |Cube(n, sampler)|
    ensures Cube(n, sampler)[(8 * n * n) * z + i] == PlaneSlots(n, sampler, z)[i]
  {
    var g := Grid(n, sampler, n);
    FlattenSlot(g, 8 * n * n, z, i);
    assert Cube(n, sampler) == Flatten(g);
    assert g[z] == PlaneSlots(n, sampler, z);
  }

  /** Point `(x, y, z)` within its plane. */
  lemma PlaneSlot(n: nat, sampler: Sampler, z: nat, y: nat, x: nat, j: nat)
    requires n >= 2 && x < n && y < n && j < 8
    ensures (8 * n) * y + (8 * x + j) < 8 * n * n
    ensures PlaneSlots(n, sampler, z)[(8 * n) * y + (8 * x + j)] == Point(n, sampler, x, y, z)[j]
  {
    var inRow := 8 * x + j;
    assert inRow < 8 * n by { RowMajorBelow(x, n, 8, j); }
    assert RowSlots(n, sampler, y, z)[inRow] == Point(n, sampler, x, y, z)[j] by {
      RowSlot(n, sampler, z, y, x, j);
    }
    PlaneBlock(n, sampler, z, y, inRow);
  }

  /** Slot `i` of row `y` within plane `z`. */
  lemma PlaneBlock(n: nat, sampler: Sampler, z: nat, y: nat, i: nat)
    requires n >= 2 && y < n && i < 8 * n
    ensures (8 * n) * y + i < 8 * n * n
    ensures PlaneSlots(n, sampler, z)[(8 * n) * y + i] == RowSlots(n, sampler, y, z)[i]
  {
    RowMajorBelow(y, n, 8 * n, i);
    FlattenSlot(Plane(n, sampler, z, n), 8 * n, y, i);
  }

  /** Point `(x, y, z)` within its row. */
  lemma RowSlot(n: nat, sampler: Sampler, z: nat, y: nat, x: nat, j: nat)
    requires n >= 2 && x < n && j < 8
    ensures 8 * x + j < |RowSlots(n, sampler, y, z)|
    ensures RowSlots(n, sampler, y, z)[8 * x + j] == Point(n, sampler, x, y, z)[j]
  {
    FlattenSlot(Row(n, sampler, y, z, n), 8, x, j);
  }

  // ---------------------------------------------------------------------
  // The sampling loop
  // ---------------------------------------------------------------------

  /** `viewF64.set(v, i)`: overwrites the slots from `i` on with `v`. */
  function Write(m: seq<real>, i: nat, v: seq<real>): (r: seq<real>)
    requires i + |v| <= |m|
    ensures |r| == |m| && r[..i] == m[..i] && r[i..i + |v|] == v && r[i + |v|..] == m[i + |v|..]
  {
    m[..i] + v + m[i + |v|..]
  }

  /** Two writes side by side are one write of both. */
  lemma WriteTwice(m: seq<real>, i: nat, a: seq<real>, b: seq<real>)
    requires i + |a| + |b| <= |m|
    ensures Write(Write(m, i, a), i + |a|, b) == Write(m, i, a + b)
  {
    var l := Write(Write(m, i, a), i + |a|, b);
    var r := Write(m, i, a + b);
    assert |l| == |r|;
    forall k | 0 <= k < |l|
      ensures l[k] == r[k]
    {
      if k < i {
      } else if k < i + |a| {
        assert l[k] == a[k - i];
      } else if k < i + |a| + |b| {
        assert l[k] == b[k - i - |a|];
      }
    }
  }

  /** `size * count + size <= size * total` when `count < total`. */
  lemma PrefixFits(size: nat, count: nat, total: nat)
    requires count < total
    ensures size * count + size == size * (count + 1) <= size * total
  {
  }

  /**
   * One step of the innermost loop extends the written row by one point:
   * its normalized position, then the sampler's values there.
   */
  lemma RowStep(m0: seq<real>, i0: nat, n: nat, sampler: Sampler, y: nat, z: nat, x: nat, pos: seq<real>, field: seq<real>)
    requires n >= 2 && x < n && i0 + 8 * n <= |m0|
    requires pos == Point(n, sampler, x, y, z)[..4] && field == Point(n, sampler, x, y, z)[4..]
    ensures |pos| == 4 && |field| == 4 && i0 + 8 * x + 8 <= |m0|
    ensures Write(Write(Write(m0, i0, RowPrefix(n, sampler, y, z, x)), i0 + 8 * x, pos), i0 + 8 * x + 4, field)
      == Write(m0, i0, RowPrefix(n, sampler, y, z, x + 1))
  {
    var written := RowPrefix(n, sampler, y, z, x);
    WriteTwice(m0, i0, written, pos);
    WriteTwice(m0, i0, written + pos, field);
    assert written + pos + field == written + Point(n, sampler, x, y, z);
    RowPrefixGrows(n, sampler, y, z, x);
  }

  /** The two halves of a grid point, as the innermost loop computes them. */
  lemma PointHalves(n: nat, sampler: Sampler, x: nat, y: nat, z: nat)
    requires n >= 2
    ensures var res := (n - 1) as real;
      var pos := [Normalize(res, x as real), Normalize(res, y as real), Normalize(res, z as real), 1.0];
      var f := sampler(pos[0], pos[1], pos[2], pos[3]);
      pos == Point(n, sampler, x, y, z)[..4] && [f.0, f.1, f.2, f.3] == Point(n, sampler, x, y, z)[4..]
  {
  }

  /** One step of the middle loop extends the written plane by one row. */
  lemma PlaneStep(m0: seq<real>, i0: nat, n: nat, sampler: Sampler, z: nat, y: nat)
    requires n >= 2 && y < n && i0 + 8 * n * n <= |m0|
    ensures |PlanePrefix(n, sampler, z, y + 1)| == |PlanePrefix(n, sampler, z, y)| + 8 * n
    ensures i0 + |PlanePrefix(n, sampler, z, y)| + 8 * n <= |m0|
    ensures Write(Write(m0, i0, PlanePrefix(n, sampler, z, y)), i0 + |PlanePrefix(n, sampler, z, y)|, RowSlots(n, sampler, y, z))
      == Write(m0, i0, PlanePrefix(n, sampler, z, y + 1))
  {
    var written, row := PlanePrefix(n, sampler, z, y), RowSlots(n, sampler, y, z);
    assert |written| + |row| <= 8 * n * n by { PrefixFits(8 * n, y, n); }
    assert PlanePrefix(n, sampler, z, y + 1) == written + row by { PlanePrefixGrows(n, sampler, z, y); }
    WriteTwice(m0, i0, written, row);
  }

  /** One step of the outer loop extends the written grid by one plane. */
  lemma GridStep(m0: seq<real>, i0: nat, n: nat, sampler: Sampler, z: nat)
    requires n >= 2 && z < n && i0 + 8 * n * n * n <= |m0|
    ensures |GridPrefix(n, sampler, z + 1)| == |GridPrefix(n, sampler, z)| + 8 * n * n
    ensures i0 + |GridPrefix(n, sampler, z)| + 8 * n * n <= |m0|
    ensures Write(Write(m0, i0, GridPrefix(n, sampler, z)), i0 + |GridPrefix(n, sampler, z)|, PlaneSlots(n, sampler, z))
      == Write(m0, i0, GridPrefix(n, sampler, z + 1))
  {
    var written, plane := GridPrefix(n, sampler, z), PlaneSlots(n, sampler, z);
    assert |written| + |plane| <= 8 * n * n * n by { PrefixFits(8 * n * n, z, n); }
    assert GridPrefix(n, sampler, z + 1) == written + plane by { GridPrefixGrows(n, sampler, z); }
    WriteTwice(m0, i0, written, plane);
  }

  /**
   * The innermost loop of `doSample`: for each `x` of row `(y, z)` of a grid
   * of `n` points per axis, the normalized position and then the sampler's
   * values, each written at `i` and followed by advancing `i`.
   */
  method SampleRow(m0: seq<real>, i0: nat, n: nat, sampler: Sampler, y: nat, z: nat) returns (m: seq<real>, i: nat)
    requires n >= 2 && i0 + 8 * n <= |m0|
    ensures i == i0 + 8 * n
    ensures m == Write(m0, i0, RowSlots(n, sampler, y, z))
  {
    m, i := m0, i0;
    assert m == Write(m0, i0, RowPrefix(n, sampler, y, z, 0));
    var res := (n - 1) as real;
    var x := 0;
    while x < n
      invariant 0 <= x <= n
      invariant i == i0 + 8 * x
      invariant m == Write(m0, i0, RowPrefix(n, sampler, y, z, x))
    {
      var pos := [Normalize(res, x as real), Normalize(res, y as real), Normalize(res, z as real), 1.0];
      var f := sampler(pos[0], pos[1], pos[2], pos[3]);
      var field := [f.0, f.1, f.2, f.3];
      PointHalves(n, sampler, x, y, z);
      RowStep(m0, i0, n, sampler, y, z, x, pos, field);
      m := Write(m, i, pos);
      i := i + |pos|;
      m := Write(m, i, field);
      i := i + |field|;
      x := x + 1;
    }
  }

  /** The middle loop of `doSample`: every row of plane `z`, `y` ascending. */
  method SamplePlane(m0: seq<real>, i0: nat, n: nat, sampler: Sampler, z: nat) returns (m: seq<real>, i: nat)
    requires n >= 2 && i0 + 8 * n * n <= |m0|
    ensures i == i0 + 8 * n * n
    ensures m == Write(m0, i0, PlaneSlots(n, sampler, z))
  {
    m, i := m0, i0;
    assert m == Write(m0, i0, PlanePrefix(n, sampler, z, 0));
    var y := 0;
    while y < n
      invariant 0 <= y <= n
      invariant i == i0 + |PlanePrefix(n, sampler, z, y)| <= |m0|
      invariant m == Write(m0, i0, PlanePrefix(n, sampler, z, y))
    {
      PlaneStep(m0, i0, n, sampler, z, y);
      m, i := SampleRow(m, i, n, sampler, y, z);
      y := y + 1;
    }
  }

  /** The outer loop of `doSample`: every plane, `z` ascending. */
  method SampleCube(m0: seq<real>, i0: nat, n: nat, sampler: Sampler) returns (m: seq<real>)
    requires n >= 2 && i0 + 8 * n * n * n <= |m0|
    ensures m == Write(m0, i0, Cube(n, sampler))
  {
    m := m0;
    assert m == Write(m0, i0, GridPrefix(n, sampler, 0));
    var i := i0;
    var z := 0;
    while z < n
      invariant 0 <= z <= n
      invariant i == i0 + |GridPrefix(n, sampler, z)| <= |m0|
      invariant m == Write(m0, i0, GridPrefix(n, sampler, z))
    {
      GridStep(m0, i0, n, sampler, z);
      m, i := SamplePlane(m, i, n, sampler, z);
      z := z + 1;
    }
    assert GridPrefix(n, sampler, z) == Cube(n, sampler);
  }

  /**
   * The triple loop of `doSample`, writing into `memory` from slot `base`
   * (`fieldRef / 8`) on: it writes the layout there and nothing else.
   */
  method SampleGrid(memory: seq<real>, base: nat, resolution: nat, sampler: Sampler) returns (m: seq<real>)
    requires resolution >= 1 && base + GridLength(resolution) <= |memory|
    ensures |m| == |memory|
    ensures m == memory[..base] + Layout(resolution, sampler) + memory[base + GridLength(resolution)..]
  {
    GridLengthCube(resolution);
    m := SampleCube(memory, base, resolution + 1, sampler);
  }

  // ---------------------------------------------------------------------
  // Weights and strides of `get`
  // ---------------------------------------------------------------------

  /** `Math.ceil`. */
  function Ceil(x: real): (r: int)
    ensures x <= r as real < x + 1.0
    ensures r == x.Floor || r == x.Floor + 1
  {
    -((-x).Floor)
  }

  /** The distances from `x` to the grid lines below and above it, `dx0` and `dx1`; each in `[0, 1)`. */
  function Distances(x: real): (d: (real, real))
    ensures 0.0 <= d.0 < 1.0 && 0.0 <= d.1 < 1.0
    ensures x.Floor as real + d.0 == x && x + d.1 == Ceil(x) as real
  {
    (x - x.Floor as real, Ceil(x) as real - x)
  }

  lemma ProductBelowOne(a: real, b: real, c: real)
    requires 0.0 <= a < 1.0 && 0.0 <= b < 1.0 && 0.0 <= c < 1.0
    ensures 0.0 <= a * b * c < 1.0
  {
    assert 0.0 <= a * b <= a < 1.0;
    assert 0.0 <= (a * b) * c <= a * b;
  }

  /**
   * The eight weights of `get` at grid coordinates `(x, y, z)`, as written:
   * corner `(cx, cy, cz)` gets `1 - dX * dY * dZ`, where each factor is the
   * distance below (`c = 0`) or above (`c = 1`) along its axis. The corners
   * are listed `w000, w001, w010, w011, w100, w101, w110, w111`, the first
   * digit for `x` and the last for `z`; each weight lies in `(0, 1]`.
   */
  function Weights(x: real, y: real, z: real): (w: seq<real>)
    ensures |w| == 8
    ensures forall k :: 0 <= k < 8 ==> 0.0 < w[k] <= 1.0
  {
    var (dx0, dx1) := Distances(x);
    var (dy0, dy1) := Distances(y);
    var (dz0, dz1) := Distances(z);
    ProductBelowOne(dx0, dy0, dz0); ProductBelowOne(dx0, dy0, dz1);
    ProductBelowOne(dx0, dy1, dz0); ProductBelowOne(dx0, dy1, dz1);
    ProductBelowOne(dx1, dy0, dz0); ProductBelowOne(dx1, dy0, dz1);
    ProductBelowOne(dx1, dy1, dz0); ProductBelowOne(dx1, dy1, dz1);
    [1.0 - dx0 * dy0 * dz0, 1.0 - dx0 * dy0 * dz1, 1.0 - dx0 * dy1 * dz0, 1.0 - dx0 * dy1 * dz1,
     1.0 - dx1 * dy0 * dz0, 1.0 - dx1 * dy0 * dz1, 1.0 - dx1 * dy1 * dz0, 1.0 - dx1 * dy1 * dz1]
  }

  /** The sum of a sequence of weights. */
  function Sum(w: seq<real>): real {
    if |w| == 0 then 0.0 else Sum(w[..|w| - 1]) + w[|w| - 1]
  }

  /** Each weight divided by their sum, `w_c / w` in `get`. */
  function Normalized(w: seq<real>): (r: seq<real>)
    requires Sum(w) != 0.0
    ensures |r| == |w| && forall k :: 0 <= k < |w| ==> r[k] * Sum(w) == w[k]
  {
    var total := Sum(w);
    seq(|w|, k requires 0 <= k < |w| => Share(w[k], total))
  }

  /** One weight's share of the total. */
  function Share(weight: real, total: real): (r: real)
    requires total != 0.0
    ensures r * total == weight
  {
    weight / total
  }

  /** Positive weights have a positive sum. */
  lemma {:induction false} SumPositive(w: seq<real>)
    requires |w| > 0 && forall k :: 0 <= k < |w| ==> w[k] > 0.0
    ensures Sum(w) > 0.0
  {
    if |w| > 1 {
      SumPositive(w[..|w| - 1]);
    }
  }

  /** Dividing every weight by `d` divides the sum by `d`. */
  lemma {:induction false} SumScaled(w: seq<real>, v: seq<real>, d: real)
    requires d != 0.0 && |v| == |w| && forall k :: 0 <= k < |w| ==> v[k] * d == w[k]
    ensures Sum(v) * d == Sum(w)
  {
    if |w| > 0 {
      SumScaled(w[..|w| - 1], v[..|v| - 1], d);
      assert Sum(v) * d == Sum(v[..|v| - 1]) * d + v[|v| - 1] * d;
    }
  }

  /** The weights of `get` have a positive sum, and the normalized weights sum to 1. */
  lemma NormalizedWeightsSumToOne(x: real, y: real, z: real)
    ensures Sum(Weights(x, y, z)) > 0.0
    ensures Sum(Normalized(Weights(x, y, z))) == 1.0
  {
    NormalizedSumsToOne(Weights(x, y, z));
  }

  /** Positive weights, divided by their sum, sum to 1. */
  lemma NormalizedSumsToOne(w: seq<real>)
    requires |w| > 0 && forall k :: 0 <= k < |w| ==> w[k] > 0.0
    ensures Sum(w) > 0.0 && Sum(Normalized(w)) == 1.0
  {
    SumPositive(w);
    NormalizedSum(w);
  }

  /** Weights with a nonzero sum, divided by that sum, sum to 1. */
  lemma NormalizedSum(w: seq<real>)
    requires Sum(w) != 0.0
    ensures Sum(Normalized(w)) == 1.0
  {
    ScaledSumIsOne(w, Normalized(w), Sum(w));
  }

  /** Weights that each are `1 / d` of the weights `w` summing to `d` sum to 1. */
  lemma ScaledSumIsOne(w: seq<real>, v: seq<real>, d: real)
    requires d == Sum(w) && d != 0.0 && |v| == |w| && forall k :: 0 <= k < |w| ==> v[k] * d == w[k]
    ensures Sum(v) == 1.0
  {
    SumScaled(w, v, d);
    UnitFactor(Sum(v), d, Sum(w));
  }

  /** `x * d == e` with `e == d != 0` forces `x == 1`. */
  lemma UnitFactor(x: real, d: real, e: real)
    requires d != 0.0 && x * d == e && e == d
    ensures x == 1.0
  {
    assert (x - 1.0) * d == 0.0;
  }

  /**
   * The offsets of the eight corners from the base corner, in the order of
   * `Weights`: `r100 = 8` steps one point along `x`, `r010 = (res + 1) * r100`
   * one row along `y`, `r001 = (res + 1) * r010` one plane along `z`.
   */
  function CornerOffsets(resolution: int): (r: seq<int>)
    ensures |r| == 8
  {
    var n := resolution + 1;
    var r100 := 8;
    var r010 := n * r100;
    var r001 := n * r010;
    [0, r001, r010, r010 + r001, r100, r100 + r001, r100 + r010, r100 + r010 + r001]
  }

  /** Corner `(cx, cy, cz)` of the cell at `(x, y, z)` lies `CornerOffsets[4 cx + 2 cy + cz]` slots after it. */
  lemma CornerStride(resolution: nat, x: nat, y: nat, z: nat, cx: nat, cy: nat, cz: nat)
    requires cx <= 1 && cy <= 1 && cz <= 1
    ensures SlotIndex(resolution + 1, x + cx, y + cy, z + cz)
      == SlotIndex(resolution + 1, x, y, z) + CornerOffsets(resolution)[4 * cx + 2 * cy + cz]
  {
    var n := resolution + 1;
    assert (8 * n * n) * (z + cz) == (8 * n * n) * z + (8 * n * n) * cz;
    assert (8 * n) * (y + cy) == (8 * n) * y + (8 * n) * cy;
  }

  /** `getSample`: the four slots from `offset` on. */
  function GetSample(field: seq<real>, offset: nat): Sample
    requires offset + 4 <= |field|
  {
    (field[offset], field[offset + 1], field[offset + 2], field[offset + 3])
  }

  // ---------------------------------------------------------------------
  // The base offset of `get`
  // ---------------------------------------------------------------------

  /**
   * The offset `get` adds the corner offsets to, as written: the row-major
   * index of the base corner `(x0, y0, z0)` plus 4, without the factor 8 of
   * the point size.
   */
  function BaseOffsetAsWritten(resolution: int, x0: int, y0: int, z0: int): int {
    var r := resolution + 1;
    (z0 * r + y0) * r + x0 + 4
  }

  /** The offset of the base corner's sampled values: its first slot plus the four position slots. */
  function BaseOffset(resolution: nat, x0: nat, y0: nat, z0: nat): nat {
    SlotIndex(resolution + 1, x0, y0, z0) + 4
  }

  /**
   * With the corrected base offset, corner `(cx, cy, cz)` of the cell at
   * `(x0, y0, z0)` reads exactly the sampler's values at that corner's
   * normalized position.
   */
  lemma CornerSample(resolution: nat, sampler: Sampler, x0: nat, y0: nat, z0: nat, cx: nat, cy: nat, cz: nat)
    requires resolution >= 1 && cx <= 1 && cy <= 1 && cz <= 1
    requires x0 + cx <= resolution && y0 + cy <= resolution && z0 + cz <= resolution
    ensures BaseOffset(resolution, x0, y0, z0) + CornerOffsets(resolution)[4 * cx + 2 * cy + cz] + 4 <= |Layout(resolution, sampler)|
    ensures var res := resolution as real;
      GetSample(Layout(resolution, sampler), BaseOffset(resolution, x0, y0, z0) + CornerOffsets(resolution)[4 * cx + 2 * cy + cz])
      == sampler(Normalize(res, (x0 + cx) as real), Normalize(res, (y0 + cy) as real), Normalize(res, (z0 + cz) as real), 1.0)
  {
    var x, y, z := x0 + cx, y0 + cy, z0 + cz;
    var k, res := SlotIndex(resolution + 1, x, y, z), resolution as real;
    assert BaseOffset(resolution, x0, y0, z0) + CornerOffsets(resolution)[4 * cx + 2 * cy + cz] == k + 4 by {
      CornerStride(resolution, x0, y0, z0, cx, cy, cz);
    }
    assert k + 8 <= |Layout(resolution, sampler)| && GetSample(Layout(resolution, sampler), k + 4)
      == sampler(Normalize(res, x as real), Normalize(res, y as real), Normalize(res, z as real), 1.0) by {
      PointSample(resolution, sampler, x, y, z);
    }
  }

  /** The sampled values of grid point `(x, y, z)` follow its four position slots. */
  lemma PointSample(resolution: nat, sampler: Sampler, x: nat, y: nat, z: nat)
    requires resolution >= 1 && x <= resolution && y <= resolution && z <= resolution
    ensures SlotIndex(resolution + 1, x, y, z) + 8 <= |Layout(resolution, sampler)|
    ensures var res := resolution as real;
      GetSample(Layout(resolution, sampler), SlotIndex(resolution + 1, x, y, z) + 4)
      == sampler(Normalize(res, x as real), Normalize(res, y as real), Normalize(res, z as real), 1.0)
  {
    var layout, k, p := Layout(resolution, sampler), SlotIndex(resolution + 1, x, y, z), Point(resolution + 1, sampler, x, y, z);
    assert k + 7 < |layout| && layout[k + 7] == p[7] by { LayoutSlot(resolution, sampler, x, y, z, 7); }
    assert layout[k + 4] == p[4] by { LayoutSlot(resolution, sampler, x, y, z, 4); }
    assert layout[k + 5] == p[5] by { LayoutSlot(resolution, sampler, x, y, z, 5); }
    assert layout[k + 6] == p[6] by { LayoutSlot(resolution, sampler, x, y, z, 6); }
  }

  /**
   * The offset as written reads the wrong slots: for the cell whose base
   * corner is grid point `(1, 0, 0)` it starts at slot 5 instead of 12, and
   * `getSample` returns three sampled values of point `(0, 0, 0)` followed
   * by the `x` coordinate of point `(1, 0, 0)`, where the corrected offset
   * reads the sampler's values at point `(1, 0, 0)`.
   */
  lemma OffsetMissesCorner(resolution: nat, sampler: Sampler)
    requires resolution >= 1
    ensures BaseOffsetAsWritten(resolution, 1, 0, 0) == 5 && BaseOffset(resolution, 1, 0, 0) == 12
    ensures var res := resolution as real;
      var f := sampler(-1.0, -1.0, -1.0, 1.0);
      GetSample(Layout(resolution, sampler), BaseOffsetAsWritten(resolution, 1, 0, 0)) == (f.1, f.2, f.3, Normalize(res, 1.0))
    ensures var res := resolution as real;
      GetSample(Layout(resolution, sampler), BaseOffset(resolution, 1, 0, 0)) == sampler(Normalize(res, 1.0), -1.0, -1.0, 1.0)
  {
    assert SlotIndex(resolution + 1, 1, 0, 0) == 8;
    AsWrittenRead(resolution, sampler);
    PointSample(resolution, sampler, 1, 0, 0);
  }

  /** Slots 5 to 8: the tail of point `(0, 0, 0)` and the head of point `(1, 0, 0)`. */
  lemma AsWrittenRead(resolution: nat, sampler: Sampler)
    requires resolution >= 1
    ensures 9 <= |Layout(resolution, sampler)|
    ensures var res := resolution as real;
      var f := sampler(-1.0, -1.0, -1.0, 1.0);
      GetSample(Layout(resolution, sampler), 5) == (f.1, f.2, f.3, Normalize(res, 1.0))
  {
    var layout, first := Layout(resolution, sampler), Point(resolution + 1, sampler, 0, 0, 0);
    assert 8 < |layout| && layout[8] == Normalize(resolution as real, 1.0) by {
      assert SlotIndex(resolution + 1, 1, 0, 0) == 8;
      LayoutSlot(resolution, sampler, 1, 0, 0, 0);
    }
    assert first[4..] == [first[4], first[5], first[6], first[7]];
    assert layout[5] == first[5] && layout[6] == first[6] && layout[7] == first[7] by {
      assert SlotIndex(resolution + 1, 0, 0, 0) == 0;
      LayoutSlot(resolution, sampler, 0, 0, 0, 5);
      LayoutSlot(resolution, sampler, 0, 0, 0, 6);
      LayoutSlot(resolution, sampler, 0, 0, 0, 7);
    }
  }

  // ---------------------------------------------------------------------
  // Trilinear weights
  // ---------------------------------------------------------------------

  /**
   * Trilinear interpolation weights at grid coordinates `(x, y, z)`, in the
   * order of `Weights`: corner `(cx, cy, cz)` gets the product of one
   * factor per axis, `1 - d0` for the corner below and `d0` for the corner
   * above, where `d0` is the distance from the corner below.
   */
  function TrilinearWeights(x: real, y: real, z: real): (w: seq<real>)
    ensures |w| == 8
    ensures forall k :: 0 <= k < 8 ==> 0.0 <= w[k] <= 1.0
  {
    var a, b, c := Distances(x).0, Distances(y).0, Distances(z).0;
    Trilinear(a, 1.0 - a, b, 1.0 - b, c, 1.0 - c)
  }

  /**
   * The trilinear products of the distances `a`, `b`, `c` from the corner
   * below and their complements `a1 = 1 - a`, `b1 = 1 - b`, `c1 = 1 - c`.
   */
  function Trilinear(a: real, a1: real, b: real, b1: real, c: real, c1: real): (w: seq<real>)
    requires 0.0 <= a <= 1.0 && 0.0 <= b <= 1.0 && 0.0 <= c <= 1.0
    requires a1 == 1.0 - a && b1 == 1.0 - b && c1 == 1.0 - c
    ensures |w| == 8
    ensures forall k :: 0 <= k < 8 ==> 0.0 <= w[k] <= 1.0
  {
    UnitProduct(a1, b1, c1); UnitProduct(a1, b1, c);
    UnitProduct(a1, b, c1); UnitProduct(a1, b, c);
    UnitProduct(a, b1, c1); UnitProduct(a, b1, c);
    UnitProduct(a, b, c1); UnitProduct(a, b, c);
    [a1 * b1 * c1, a1 * b1 * c, a1 * b * c1, a1 * b * c, a * b1 * c1, a * b1 * c, a * b * c1, a * b * c]
  }

  lemma UnitProduct(p: real, q: real, r: real)
    requires 0.0 <= p <= 1.0 && 0.0 <= q <= 1.0 && 0.0 <= r <= 1.0
    ensures 0.0 <= p * q * r <= 1.0
  {
    assert 0.0 <= p * q <= p;
    assert 0.0 <= (p * q) * r <= p * q;
  }

  /** The sum of eight weights, written out. */
  lemma SumOfEight(w: seq<real>)
    requires |w| == 8
    ensures Sum(w) == w[0] + w[1] + w[2] + w[3] + w[4] + w[5] + w[6] + w[7]
  {
    assert Sum(w[..1]) == w[0] by { assert w[..1][..0] == []; }
    assert Sum(w[..2]) == Sum(w[..1]) + w[1] by { assert w[..2][..1] == w[..1]; }
    assert Sum(w[..3]) == Sum(w[..2]) + w[2] by { assert w[..3][..2] == w[..2]; }
    assert Sum(w[..4]) == Sum(w[..3]) + w[3] by { assert w[..4][..3] == w[..3]; }
    assert Sum(w[..5]) == Sum(w[..4]) + w[4] by { assert w[..5][..4] == w[..4]; }
    assert Sum(w[..6]) == Sum(w[..5]) + w[5] by { assert w[..6][..5] == w[..5]; }
    assert Sum(w[..7]) == Sum(w[..6]) + w[6] by { assert w[..7][..6] == w[..6]; }
  }

  /**
   * Trilinear weights sum to 1 without normalizing, and interpolating the
   * grid coordinates themselves gives back `(x, y, z)`: the weight on the
   * corners above along an axis is the distance from the corner below.
   */
  lemma TrilinearInterpolates(x: real, y: real, z: real)
    ensures var w := TrilinearWeights(x, y, z);
      && Sum(w) == 1.0
      && x.Floor as real + (w[4] + w[5] + w[6] + w[7]) == x
      && y.Floor as real + (w[2] + w[3] + w[6] + w[7]) == y
      && z.Floor as real + (w[1] + w[3] + w[5] + w[7]) == z
  {
    var w := TrilinearWeights(x, y, z);
    SumOfEight(w);
    TrilinearAlgebra(Distances(x).0, Distances(y).0, Distances(z).0);
  }

  /**
   * At a grid point all the weight is on the base corner: the corners above
   * it contribute nothing, so over the reals `get(+1, +1, +1)` is the sample at
   * `(res, res, res)` whatever lies beyond the grid.
   */
  lemma TrilinearAtGridPoint(x: real, y: real, z: real)
    requires x.Floor as real == x && y.Floor as real == y && z.Floor as real == z
    ensures TrilinearWeights(x, y, z) == [1.0, 0.0, 0.0, 0.0, 0.0, 0.0, 0.0, 0.0]
  {
  }

  /** The trilinear products of `(a, b, c)`: they sum to 1, and each axis's upper corners carry its coordinate. */
  lemma TrilinearAlgebra(a: real, b: real, c: real)
    ensures (1.0 - a) * (1.0 - b) * (1.0 - c) + (1.0 - a) * (1.0 - b) * c + (1.0 - a) * b * (1.0 - c) + (1.0 - a) * b * c
      + a * (1.0 - b) * (1.0 - c) + a * (1.0 - b) * c + a * b * (1.0 - c) + a * b * c == 1.0
    ensures a * (1.0 - b) * (1.0 - c) + a * (1.0 - b) * c + a * b * (1.0 - c) + a * b * c == a
    ensures (1.0 - a) * b * (1.0 - c) + (1.0 - a) * b * c + a * b * (1.0 - c) + a * b * c == b
    ensures (1.0 - a) * (1.0 - b) * c + (1.0 - a) * b * c + a * (1.0 - b) * c + a * b * c == c
  {
  }

  /**
   * The weights as written are not trilinear: a quarter of the way from
   * grid point `(0, 0, 0)` to `(1, 0, 0)`, `get` puts half the weight on
   * the corners at `x = 1`, where trilinear interpolation puts a quarter.
   */
  lemma WeightsAreNotTrilinear()
    ensures Sum(Weights(0.25, 0.0, 0.0)) == 8.0
    ensures var w := Normalized(Weights(0.25, 0.0, 0.0));
      w[4] + w[5] + w[6] + w[7] == 0.5
    ensures var t := TrilinearWeights(0.25, 0.0, 0.0);
      t[4] + t[5] + t[6] + t[7] == 0.25
  {
    var w := Weights(0.25, 0.0, 0.0);
    assert Distances(0.25) == (0.25, 0.75) && Distances(0.0) == (0.0, 0.0);
    assert w == [1.0, 1.0, 1.0, 1.0, 1.0, 1.0, 1.0, 1.0];
    SumOfEight(w);
    TrilinearInterpolates(0.25, 0.0, 0.0);
  }
}
