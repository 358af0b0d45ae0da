/**
 * `PerspectiveProjection` of `projection.ts`: a perspective matrix and its
 * inverse, chosen once by the constructor from the near plane, the
 * optional far plane and the `reversedZ`/`legacy` switches, then combined
 * with per-call x/y scale factors. Matrices are column-major as in the
 * matrix model: `m[j]` is column `j`.
 */
module Projection {
  import opened Wrappers
  import opened Matrices
  import Vectors

  /** `EPSILON`: 2 to the power -20. */
  const Epsilon: real := 1.0 / 1048576.0

  /** A perspective matrix and the matrix meant to be its inverse. */
  datatype Pair = Pair(matrix: Mat, inverse: Mat)

  predicate IsMat4(m: Mat) {
    |m| == 4 && IsSquare(m)
  }

  /** `infinite(near, limit1, limit2)`: the pair for a far plane at infinity. */
  function Infinite(near: real, limit1: real, limit2: real): (r: Pair)
    requires near * limit1 != 0.0
    ensures IsMat4(r.matrix) && IsMat4(r.inverse)
  {
    var prod := near * limit1;
    Pair(
      [ [1.0, 0.0, 0.0, 0.0],
        [0.0, 1.0, 0.0, 0.0],
        [0.0, 0.0, -limit2, -1.0],
        [0.0, 0.0, -prod, 0.0] ],
      [ [1.0, 0.0, 0.0, 0.0],
        [0.0, 1.0, 0.0, 0.0],
        [0.0, 0.0, 0.0, -1.0 / prod],
        [0.0, 0.0, -1.0, limit2 / prod] ])
  }

  /** `finite(near, far, sum, prod)`: the pair for a far plane at distance `far`. */
  function Finite(near: real, far: real, sum: real, prod: real): (r: Pair)
    requires far != near && prod != 0.0
    ensures IsMat4(r.matrix) && IsMat4(r.inverse)
  {
    var range := far - near;
    Pair(
      [ [1.0, 0.0, 0.0, 0.0],
        [0.0, 1.0, 0.0, 0.0],
        [0.0, 0.0, -sum / range, -1.0],
        [0.0, 0.0, -prod / range, 0.0] ],
      [ [1.0, 0.0, 0.0, 0.0],
        [0.0, 1.0, 0.0, 0.0],
        [0.0, 0.0, 0.0, -range / prod],
        [0.0, 0.0, -1.0, sum / prod] ])
  }

  /**
   * The two limits the constructor passes to `infinite`: `limit1` is nonzero,
   * as `infinite` needs, and `limit2 - limit1` is the depth the near plane
   * maps to.
   */
  function InfiniteLimits(reversedZ: bool, legacy: bool): (r: (real, real))
    ensures r.0 != 0.0
    ensures r.1 - r.0 == NearDepth(reversedZ, legacy)
  {
    if reversedZ then
      if legacy then (Epsilon - 2.0, Epsilon - 1.0) else (Epsilon - 1.0, Epsilon)
    else
      if legacy then (2.0 - Epsilon, 1.0 - Epsilon) else (1.0 - Epsilon, 1.0 - Epsilon)
  }

  /** The constructor's arguments for a bounded projection: the pair it passes to `finite`. */
  predicate ValidPlanes(near: real, far: Option<real>) {
    near != 0.0 && (far.Some? ==> far.value != 0.0 && far.value != near)
  }

  /**
   * The `finite` call for planes `near` and `far` in that order: the far
   * plane and the product by default, the sum and twice the product with
   * `legacy`. The constructor's four bounded calls are this function with
   * the planes in the given order, or swapped for `reversedZ`.
   */
  function Bounded(near: real, far: real, legacy: bool): (r: Pair)
    requires near != 0.0 && far != 0.0 && far != near
    ensures IsMat4(r.matrix) && IsMat4(r.inverse)
  {
    if legacy then Finite(near, far, near + far, 2.0 * near * far) else Finite(near, far, far, near * far)
  }

  /** The constructor: `infinite` when there is no far plane, `finite` otherwise. */
  function Construct(near: real, far: Option<real>, reversedZ: bool, legacy: bool): (r: Pair)
    requires ValidPlanes(near, far)
    ensures IsMat4(r.matrix) && IsMat4(r.inverse)
  {
    match far
    case None =>
      var (l1, l2) := InfiniteLimits(reversedZ, legacy);
      Infinite(near, l1, l2)
    case Some(f) =>
      if reversedZ then Bounded(f, near, legacy) else Bounded(near, f, legacy)
  }

  /** `projectionMatrix`: `scaleX` and `scaleY` on the first two columns, columns 2 and 3 copied. */
  function ProjectionMatrix(scaleX: real, scaleY: real, perspective: Mat): (r: Mat)
    requires IsMat4(perspective)
    ensures IsMat4(r)
    ensures r[0] == [scaleX, 0.0, 0.0, 0.0] && r[1] == [0.0, scaleY, 0.0, 0.0]
    ensures r[2] == perspective[2] && r[3] == perspective[3]
  {
    [[scaleX, 0.0, 0.0, 0.0], [0.0, scaleY, 0.0, 0.0], perspective[2], perspective[3]]
  }

  /** The x and y scale factors of `matrices` and `matrix`. */
  function ScaleFactors(focalLength: real, aspectRatio: real): (r: (real, real))
    ensures r.1 == r.0 * aspectRatio
    ensures aspectRatio > 1.0 ==> r.1 == focalLength
    ensures aspectRatio <= 1.0 ==> r.0 == focalLength
  {
    if aspectRatio > 1.0 then (focalLength / aspectRatio, focalLength) else (focalLength, focalLength * aspectRatio)
  }

  /** `matrices(focalLength, aspectRatio)`: the scaled matrix and the inversely scaled inverse. */
  function ScaledPair(p: Pair, focalLength: real, aspectRatio: real): (r: Pair)
    requires IsMat4(p.matrix) && IsMat4(p.inverse)
    requires focalLength != 0.0 && aspectRatio != 0.0
    ensures IsMat4(r.matrix) && IsMat4(r.inverse)
  {
    var (scaleX, scaleY) := ScaleFactors(focalLength, aspectRatio);
    Pair(ProjectionMatrix(scaleX, scaleY, p.matrix), ProjectionMatrix(1.0 / scaleX, 1.0 / scaleY, p.inverse))
  }

  /** `matrix(focalLength, aspectRatio)`. */
  function Matrix(p: Pair, focalLength: real, aspectRatio: real): (r: Mat)
    requires IsMat4(p.matrix)
    ensures IsMat4(r)
  {
    var (scaleX, scaleY) := ScaleFactors(focalLength, aspectRatio);
    ProjectionMatrix(scaleX, scaleY, p.matrix)
  }

  /** `inverseMatrix(focalLength, aspectRatio)`: its own formula for the inverse scale factors. */
  function InverseMatrix(p: Pair, focalLength: real, aspectRatio: real): (r: Mat)
    requires IsMat4(p.inverse)
    requires focalLength != 0.0 && aspectRatio != 0.0
    ensures IsMat4(r)
  {
    var scale := 1.0 / focalLength;
    var (scaleX, scaleY) := if aspectRatio > 1.0 then (scale * aspectRatio, scale) else (scale, scale / aspectRatio);
    ProjectionMatrix(scaleX, scaleY, p.inverse)
  }

  // ---------------------------------------------------------------------
  // Block structure: every matrix here is diag(sx, sy) beside a 2-by-2 block
  // ---------------------------------------------------------------------

  /** `scaleX` and `scaleY` on the diagonal of the first two columns, the 2-by-2 block `b` on the last two. */
  function BlockDiag(scaleX: real, scaleY: real, b: Mat): (r: Mat)
    requires |b| == 2 && IsSquare(b)
    ensures IsMat4(r)
  {
    [ [scaleX, 0.0, 0.0, 0.0],
      [0.0, scaleY, 0.0, 0.0],
      [0.0, 0.0, b[0][0], b[0][1]],
      [0.0, 0.0, b[1][0], b[1][1]] ]
  }

  /** The lower-right 2-by-2 block. */
  function Block(m: Mat): (r: Mat)
    requires IsMat4(m)
    ensures |r| == 2 && IsSquare(r)
  {
    [[m[2][2], m[2][3]], [m[3][2], m[3][3]]]
  }

  /** Two columns of four entries are equal once their entries are. */
  lemma SameColumn(u: Vectors.Vec, v: Vectors.Vec)
    requires |u| == 4 && |v| == 4
    requires u[0] == v[0] && u[1] == v[1] && u[2] == v[2] && u[3] == v[3]
    ensures u == v
  {
  }

  /** The first two columns of a product of block-diagonal matrices. */
  lemma BlockDiagMulScales(sx: real, sy: real, a: Mat, tx: real, ty: real, b: Mat)
    requires |a| == 2 && IsSquare(a) && |b| == 2 && IsSquare(b)
    ensures Mul(BlockDiag(sx, sy, a), BlockDiag(tx, ty, b))[0] == BlockDiag(sx * tx, sy * ty, Mul(a, b))[0]
    ensures Mul(BlockDiag(sx, sy, a), BlockDiag(tx, ty, b))[1] == BlockDiag(sx * tx, sy * ty, Mul(a, b))[1]
  {
    var l, r := BlockDiag(sx, sy, a), BlockDiag(tx, ty, b);
    var p := Mul(l, r);
    var q := BlockDiag(sx * tx, sy * ty, Mul(a, b));
    assert p[0] == q[0] by {
      Mul4Column(l, r, 0);
      SameColumn(p[0], q[0]);
    }
    assert p[1] == q[1] by {
      Mul4Column(l, r, 1);
      SameColumn(p[1], q[1]);
    }
  }

  /** The last two columns of a product of block-diagonal matrices. */
  lemma BlockDiagMulBlocks(sx: real, sy: real, a: Mat, tx: real, ty: real, b: Mat)
    requires |a| == 2 && IsSquare(a) && |b| == 2 && IsSquare(b)
    ensures Mul(BlockDiag(sx, sy, a), BlockDiag(tx, ty, b))[2] == BlockDiag(sx * tx, sy * ty, Mul(a, b))[2]
    ensures Mul(BlockDiag(sx, sy, a), BlockDiag(tx, ty, b))[3] == BlockDiag(sx * tx, sy * ty, Mul(a, b))[3]
  {
    BlockDiagMulThird(sx, sy, a, tx, ty, b);
    BlockDiagMulFourth(sx, sy, a, tx, ty, b);
  }

  lemma BlockDiagMulThird(sx: real, sy: real, a: Mat, tx: real, ty: real, b: Mat)
    requires |a| == 2 && IsSquare(a) && |b| == 2 && IsSquare(b)
    ensures Mul(BlockDiag(sx, sy, a), BlockDiag(tx, ty, b))[2] == BlockDiag(sx * tx, sy * ty, Mul(a, b))[2]
  {
    var l, r := BlockDiag(sx, sy, a), BlockDiag(tx, ty, b);
    var p, q := Mul(l, r), BlockDiag(sx * tx, sy * ty, Mul(a, b));
    Mul4Column(l, r, 2);
    Mul2Entry(a, b, 0, 0);
    Mul2Entry(a, b, 0, 1);
    SameColumn(p[2], q[2]);
  }

  lemma BlockDiagMulFourth(sx: real, sy: real, a: Mat, tx: real, ty: real, b: Mat)
    requires |a| == 2 && IsSquare(a) && |b| == 2 && IsSquare(b)
    ensures Mul(BlockDiag(sx, sy, a), BlockDiag(tx, ty, b))[3] == BlockDiag(sx * tx, sy * ty, Mul(a, b))[3]
  {
    var l, r := BlockDiag(sx, sy, a), BlockDiag(tx, ty, b);
    var p, q := Mul(l, r), BlockDiag(sx * tx, sy * ty, Mul(a, b));
    Mul4Column(l, r, 3);
    Mul2Entry(a, b, 1, 0);
    Mul2Entry(a, b, 1, 1);
    SameColumn(p[3], q[3]);
  }

  /** Block-diagonal matrices multiply block by block. */
  lemma BlockDiagMul(sx: real, sy: real, a: Mat, tx: real, ty: real, b: Mat)
    requires |a| == 2 && IsSquare(a) && |b| == 2 && IsSquare(b)
    ensures Mul(BlockDiag(sx, sy, a), BlockDiag(tx, ty, b)) == BlockDiag(sx * tx, sy * ty, Mul(a, b))
  {
    BlockDiagMulScales(sx, sy, a, tx, ty, b);
    BlockDiagMulBlocks(sx, sy, a, tx, ty, b);
  }

  lemma IdentityBlockDiag()
    ensures Identity(4) == BlockDiag(1.0, 1.0, Identity(2))
  {
    var i2, i4 := Identity(2), Identity(4);
    assert i2[0] == [1.0, 0.0] && i2[1] == [0.0, 1.0] by {
      assert i2[0][0] == 1.0 && i2[0][1] == 0.0 && i2[1][0] == 0.0 && i2[1][1] == 1.0;
    }
    var d := BlockDiag(1.0, 1.0, i2);
    assert i4[0] == d[0] by {
      assert i4[0][0] == 1.0 && i4[0][1] == 0.0 && i4[0][2] == 0.0 && i4[0][3] == 0.0;
    }
    assert i4[1] == d[1] by {
      assert i4[1][0] == 0.0 && i4[1][1] == 1.0 && i4[1][2] == 0.0 && i4[1][3] == 0.0;
    }
    assert i4[2] == d[2] by {
      assert i4[2][0] == 0.0 && i4[2][1] == 0.0 && i4[2][2] == 1.0 && i4[2][3] == 0.0;
    }
    assert i4[3] == d[3] by {
      assert i4[3][0] == 0.0 && i4[3][1] == 0.0 && i4[3][2] == 0.0 && i4[3][3] == 1.0;
    }
  }

  /** Scaling the diagonal by `s` and by `1 / s` and taking 2-by-2 inverse blocks gives a mutually inverse pair. */
  lemma BlockDiagInverse(sx: real, sy: real, a: Mat, b: Mat)
    requires |a| == 2 && IsSquare(a) && |b| == 2 && IsSquare(b)
    requires sx != 0.0 && sy != 0.0
    requires Mul(a, b) == Identity(2) && Mul(b, a) == Identity(2)
    ensures MutuallyInverse(Pair(BlockDiag(sx, sy, a), BlockDiag(1.0 / sx, 1.0 / sy, b)))
  {
    var tx, ty := 1.0 / sx, 1.0 / sy;
    var l, r := BlockDiag(sx, sy, a), BlockDiag(tx, ty, b);
    BlockDiagMul(sx, sy, a, tx, ty, b);
    BlockDiagMul(tx, ty, b, sx, sy, a);
    assert sx * tx == 1.0 && tx * sx == 1.0;
    assert sy * ty == 1.0 && ty * sy == 1.0;
    IdentityBlockDiag();
    assert Mul(l, r) == BlockDiag(1.0, 1.0, Identity(2));
    assert Mul(r, l) == BlockDiag(1.0, 1.0, Identity(2));
  }

  // ---------------------------------------------------------------------
  // The pairs are mutually inverse
  // ---------------------------------------------------------------------

  /** `inverse` undoes `matrix` on both sides. */
  predicate MutuallyInverse(p: Pair)
    requires IsMat4(p.matrix) && IsMat4(p.inverse)
  {
    Mul(p.matrix, p.inverse) == Identity(4) && Mul(p.inverse, p.matrix) == Identity(4)
  }

  /** A pair of unscaled perspective matrices whose 2-by-2 blocks are mutually inverse. */
  predicate BlockInverse(p: Pair)
    requires IsMat4(p.matrix) && IsMat4(p.inverse)
  {
    p.matrix == BlockDiag(1.0, 1.0, Block(p.matrix))
    && p.inverse == BlockDiag(1.0, 1.0, Block(p.inverse))
    && Mul(Block(p.matrix), Block(p.inverse)) == Identity(2)
    && Mul(Block(p.inverse), Block(p.matrix)) == Identity(2)
  }

  lemma BlockInverseIsInverse(p: Pair)
    requires IsMat4(p.matrix) && IsMat4(p.inverse) && BlockInverse(p)
    ensures MutuallyInverse(p)
  {
    var a, b := Block(p.matrix), Block(p.inverse);
    BlockDiagInverse(1.0, 1.0, a, b);
    assert 1.0 / 1.0 == 1.0;
    assert p == Pair(BlockDiag(1.0, 1.0, a), BlockDiag(1.0 / 1.0, 1.0 / 1.0, b));
  }

  lemma InfiniteIsInverse(near: real, limit1: real, limit2: real)
    requires near * limit1 != 0.0
    ensures BlockInverse(Infinite(near, limit1, limit2))
    ensures MutuallyInverse(Infinite(near, limit1, limit2))
  {
    var p := Infinite(near, limit1, limit2);
    var a, b := Block(p.matrix), Block(p.inverse);
    var prod := near * limit1;
    assert prod * (1.0 / prod) == 1.0;
    Mul2Entries(a, b);
    Mul2Entries(b, a);
    Equal2(Mul(a, b), Identity(2));
    Equal2(Mul(b, a), Identity(2));
    BlockInverseIsInverse(p);
  }

  lemma FiniteIsInverse(near: real, far: real, sum: real, prod: real)
    requires far != near && prod != 0.0
    ensures BlockInverse(Finite(near, far, sum, prod))
    ensures MutuallyInverse(Finite(near, far, sum, prod))
  {
    var p := Finite(near, far, sum, prod);
    var a, b := Block(p.matrix), Block(p.inverse);
    var range := far - near;
    assert (prod / range) * (range / prod) == 1.0;
    assert (sum / range) * (range / prod) == sum / prod;
    Mul2Entries(a, b);
    Mul2Entries(b, a);
    Equal2(Mul(a, b), Identity(2));
    Equal2(Mul(b, a), Identity(2));
    BlockInverseIsInverse(p);
  }

  lemma SameAsFinite(p: Pair, near: real, far: real, sum: real, prod: real)
    requires far != near && prod != 0.0 && p == Finite(near, far, sum, prod)
    ensures IsMat4(p.matrix) && IsMat4(p.inverse)
    ensures BlockInverse(p) && MutuallyInverse(p)
  {
    FiniteIsInverse(near, far, sum, prod);
  }

  lemma BoundedIsInverse(near: real, far: real, legacy: bool)
    requires near != 0.0 && far != 0.0 && far != near
    ensures BlockInverse(Bounded(near, far, legacy))
    ensures MutuallyInverse(Bounded(near, far, legacy))
  {
    NonzeroProduct(near, far);
    var p := Bounded(near, far, legacy);
    if legacy {
      SameAsFinite(p, near, far, near + far, 2.0 * near * far);
    } else {
      SameAsFinite(p, near, far, far, near * far);
    }
  }

  lemma NonzeroProduct(a: real, b: real)
    requires a != 0.0 && b != 0.0
    ensures a * b != 0.0 && 2.0 * a * b != 0.0
  {
  }

  /** Every pair the constructor can build is mutually inverse. */
  lemma ConstructIsInverse(near: real, far: Option<real>, reversedZ: bool, legacy: bool)
    requires ValidPlanes(near, far)
    ensures BlockInverse(Construct(near, far, reversedZ, legacy))
    ensures MutuallyInverse(Construct(near, far, reversedZ, legacy))
  {
    match far
    case None =>
      var (l1, l2) := InfiniteLimits(reversedZ, legacy);
      InfiniteIsInverse(near, l1, l2);
    case Some(f) =>
      if reversedZ {
        BoundedIsInverse(f, near, legacy);
      } else {
        BoundedIsInverse(near, f, legacy);
      }
  }

  // ---------------------------------------------------------------------
  // Depth: where the planes land after the perspective division
  // ---------------------------------------------------------------------

  /** The view-space point `z` units in front of the camera, which looks down the negative z axis. */
  function ViewPoint(z: real): (r: Vectors.Vec)
    ensures |r| == 4 && r[2] == -z && r[3] == 1.0
  {
    [0.0, 0.0, -z, 1.0]
  }

  /**
   * The normalized depth of `ViewPoint(z)` under `m`: clip-space z over
   * clip-space w, or `None` where w is zero.
   */
  function Depth(m: Mat, z: real): (r: Option<real>)
    requires IsMat4(m)
    ensures r.Some? <==> Apply(m, ViewPoint(z))[3] != 0.0
  {
    var c := Apply(m, ViewPoint(z));
    if c[3] == 0.0 then None else Some(c[2] / c[3])
  }

  /** Clip-space z and w of a view point depend only on the last two columns. */
  lemma ApplyViewPoint(m: Mat, z: real)
    requires IsMat4(m)
    ensures Apply(m, ViewPoint(z))[2] == m[3][2] - z * m[2][2]
    ensures Apply(m, ViewPoint(z))[3] == m[3][3] - z * m[2][3]
  {
    var v := ViewPoint(z);
    ApplyEntry(m, v);
    var r2, r3 := Row(m, 2), Row(m, 3);
    Vectors.Dot4(r2, v);
    Vectors.Dot4(r3, v);
  }

  /** The value `Depth` gives the near plane for each choice of switches. */
  function NearDepth(reversedZ: bool, legacy: bool): real {
    if reversedZ then 1.0 else if legacy then -1.0 else 0.0
  }

  /** The value `Depth` gives the far plane, when there is one. */
  function FarDepth(reversedZ: bool, legacy: bool): real {
    if !reversedZ then 1.0 else if legacy then -1.0 else 0.0
  }

  /** Under `finite(near, far, sum, prod)` the depth of a point at `z` is `(z sum - prod) / (z (far - near))`. */
  lemma FiniteDepth(near: real, far: real, sum: real, prod: real, z: real)
    requires far != near && prod != 0.0 && z != 0.0
    ensures Depth(Finite(near, far, sum, prod).matrix, z) == Some((z * sum - prod) / (z * (far - near)))
  {
    var m := Finite(near, far, sum, prod).matrix;
    ApplyViewPoint(m, z);
    var c := Apply(m, ViewPoint(z));
    ViewDepth(c[2], c[3], near, far, sum, prod, z);
  }

  /** The clip-space z over w of a view point under a finite matrix with range `range`. */
  lemma ViewDepth(c2: real, c3: real, near: real, far: real, sum: real, prod: real, z: real)
    requires far != near && z != 0.0
    requires c2 == -prod / (far - near) - z * (-sum / (far - near))
    requires c3 == 0.0 - z * -1.0
    ensures c3 != 0.0 && c2 / c3 == (z * sum - prod) / (z * (far - near))
  {
    var range := far - near;
    var q := (z * sum - prod) / range;
    assert c2 == q by {
      assert (-prod / range - z * (-sum / range)) * range == z * sum - prod;
    }
    assert (q / z) * (z * range) == q * range;
  }


  /** Under `infinite(near, limit1, limit2)` the depth of a point at `z` is `limit2 - near limit1 / z`. */
  lemma InfiniteDepth(near: real, limit1: real, limit2: real, z: real)
    requires near * limit1 != 0.0 && z != 0.0
    ensures Depth(Infinite(near, limit1, limit2).matrix, z) == Some(limit2 - near * limit1 / z)
  {
    var m := Infinite(near, limit1, limit2).matrix;
    var prod := near * limit1;
    ApplyViewPoint(m, z);
    assert m[2][2] == -limit2 && m[3][2] == -prod && m[2][3] == -1.0 && m[3][3] == 0.0;
    var c := Apply(m, ViewPoint(z));
    assert c[3] == z && c[2] == z * limit2 - prod;
    assert (z * limit2 - prod) / z == limit2 - prod / z;
  }

  /** `Bounded` sends its first plane to depth 0 (-1 with `legacy`) and its second to depth 1. */
  lemma BoundedDepth(near: real, far: real, legacy: bool)
    requires near != 0.0 && far != 0.0 && far != near
    ensures Depth(Bounded(near, far, legacy).matrix, near) == Some(if legacy then -1.0 else 0.0)
    ensures Depth(Bounded(near, far, legacy).matrix, far) == Some(1.0)
  {
    if legacy {
      FiniteDepthAt(near, far, near + far, 2.0 * near * far, near, -1.0);
      FiniteDepthAt(near, far, near + far, 2.0 * near * far, far, 1.0);
    } else {
      FiniteDepthAt(near, far, far, near * far, near, 0.0);
      FiniteDepthAt(near, far, far, near * far, far, 1.0);
    }
  }

  /**
   * The constructor's matrix sends the near plane to depth 0 (-1 with
   * `legacy`) and the far plane to depth 1; `reversedZ` swaps the two ends.
   */
  lemma ConstructDepthBounded(near: real, far: Option<real>, reversedZ: bool, legacy: bool)
    requires ValidPlanes(near, far) && far.Some?
    ensures Depth(Construct(near, far, reversedZ, legacy).matrix, near) == Some(NearDepth(reversedZ, legacy))
    ensures Depth(Construct(near, far, reversedZ, legacy).matrix, far.value) == Some(FarDepth(reversedZ, legacy))
  {
    if reversedZ {
      BoundedDepth(far.value, near, legacy);
    } else {
      BoundedDepth(near, far.value, legacy);
    }
  }

  /** Where `finite` puts a point at `z`, given the ratio of the two sides of `FiniteDepth`. */
  lemma FiniteDepthAt(near: real, far: real, sum: real, prod: real, z: real, k: real)
    requires far != near && prod != 0.0 && z != 0.0
    requires z * sum - prod == k * (z * (far - near))
    ensures Depth(Finite(near, far, sum, prod).matrix, z) == Some(k)
  {
    FiniteDepth(near, far, sum, prod, z);
    Ratio(z * sum - prod, z * (far - near), k);
  }

  /** A quotient whose numerator is `k` times its denominator is `k`. */
  lemma Ratio(a: real, b: real, k: real)
    requires b != 0.0 && a == k * b
    ensures a / b == k
  {
  }

  /** `infinite(near, limit1, limit2)` puts the near plane at depth `limit2 - limit1`. */
  lemma InfiniteDepthAtNear(near: real, limit1: real, limit2: real)
    requires near * limit1 != 0.0
    ensures Depth(Infinite(near, limit1, limit2).matrix, near) == Some(limit2 - limit1)
  {
    InfiniteDepth(near, limit1, limit2, near);
    Ratio(near * limit1, near, limit1);
  }

  /**
   * Without a far plane the near plane still lands on `NearDepth`; by
   * `InfiniteDepth` the depth of farther points approaches the second
   * limit, just short of the far end.
   */
  lemma ConstructDepthInfinite(near: real, reversedZ: bool, legacy: bool)
    requires ValidPlanes(near, None)
    ensures Depth(Construct(near, None, reversedZ, legacy).matrix, near) == Some(NearDepth(reversedZ, legacy))
  {
    var limits := InfiniteLimits(reversedZ, legacy);
    InfiniteDepthAtNear(near, limits.0, limits.1);
  }

  /** `projectionMatrix` of an unscaled perspective matrix is the block-diagonal matrix with the new scales. */
  lemma ProjectionMatrixBlock(scaleX: real, scaleY: real, m: Mat)
    requires IsMat4(m) && m == BlockDiag(1.0, 1.0, Block(m))
    ensures ProjectionMatrix(scaleX, scaleY, m) == BlockDiag(scaleX, scaleY, Block(m))
  {
  }

  /** `projectionMatrix` changes only x and y: every point keeps its depth. */
  lemma ProjectionMatrixDepth(scaleX: real, scaleY: real, m: Mat, z: real)
    requires IsMat4(m)
    ensures Depth(ProjectionMatrix(scaleX, scaleY, m), z) == Depth(m, z)
  {
    var r := ProjectionMatrix(scaleX, scaleY, m);
    ApplyViewPoint(m, z);
    ApplyViewPoint(r, z);
    var c, d := Apply(r, ViewPoint(z)), Apply(m, ViewPoint(z));
    assert c[2] == d[2] && c[3] == d[3];
  }

  /** For a nonzero focal length and aspect ratio, `matrices` returns a mutually inverse pair. */
  lemma ScaledPairIsInverse(near: real, far: Option<real>, reversedZ: bool, legacy: bool, focalLength: real, aspectRatio: real)
    requires ValidPlanes(near, far)
    requires focalLength != 0.0 && aspectRatio != 0.0
    ensures MutuallyInverse(ScaledPair(Construct(near, far, reversedZ, legacy), focalLength, aspectRatio))
  {
    var p := Construct(near, far, reversedZ, legacy);
    ConstructIsInverse(near, far, reversedZ, legacy);
    var (scaleX, scaleY) := ScaleFactors(focalLength, aspectRatio);
    assert scaleX != 0.0 && scaleY != 0.0;
    ProjectionMatrixBlock(scaleX, scaleY, p.matrix);
    ProjectionMatrixBlock(1.0 / scaleX, 1.0 / scaleY, p.inverse);
    BlockDiagInverse(scaleX, scaleY, Block(p.matrix), Block(p.inverse));
  }

  /** `1 / (f * a)` is `(1 / f) / a`, and `1 / (f / a)` is `(1 / f) * a`. */
  lemma Reciprocals(f: real, a: real)
    requires f != 0.0 && a != 0.0
    ensures 1.0 / (f * a) == (1.0 / f) / a
    ensures 1.0 / (f / a) == (1.0 / f) * a
  {
    var g := 1.0 / f;
    assert g * f == 1.0;
    assert (g / a) * (f * a) == 1.0;
    assert (g * a) * (f / a) == 1.0;
  }

  /** Equal divisors give equal quotients. */
  lemma SameDivisor(x: real, y: real)
    requires x == y && y != 0.0
    ensures 1.0 / x == 1.0 / y
  {
  }

  /**
   * The reciprocals of the scale factors are the factors `inverseMatrix`
   * computes from `1 / focalLength`.
   */
  lemma InverseScaleFactors(focalLength: real, aspectRatio: real)
    requires focalLength != 0.0 && aspectRatio != 0.0
    ensures ScaleFactors(focalLength, aspectRatio).0 != 0.0 && ScaleFactors(focalLength, aspectRatio).1 != 0.0
    ensures aspectRatio > 1.0 ==> 1.0 / ScaleFactors(focalLength, aspectRatio).0 == (1.0 / focalLength) * aspectRatio
    ensures aspectRatio > 1.0 ==> 1.0 / ScaleFactors(focalLength, aspectRatio).1 == 1.0 / focalLength
    ensures aspectRatio <= 1.0 ==> 1.0 / ScaleFactors(focalLength, aspectRatio).0 == 1.0 / focalLength
    ensures aspectRatio <= 1.0 ==> 1.0 / ScaleFactors(focalLength, aspectRatio).1 == (1.0 / focalLength) / aspectRatio
  {
    var f, a := focalLength, aspectRatio;
    Reciprocals(f, a);
    if a > 1.0 {
      assert ScaleFactors(f, a) == (f / a, f);
      SameDivisor(ScaleFactors(f, a).0, f / a);
    } else {
      assert ScaleFactors(f, a) == (f, f * a);
      SameDivisor(ScaleFactors(f, a).1, f * a);
    }
  }

  /** `matrix` and `inverseMatrix` are the two halves of `matrices`. */
  lemma MatrixAndInverseMatrix(p: Pair, focalLength: real, aspectRatio: real)
    requires IsMat4(p.matrix) && IsMat4(p.inverse)
    requires focalLength != 0.0 && aspectRatio != 0.0
    ensures Matrix(p, focalLength, aspectRatio) == ScaledPair(p, focalLength, aspectRatio).matrix
    ensures InverseMatrix(p, focalLength, aspectRatio) == ScaledPair(p, focalLength, aspectRatio).inverse
  {
    InverseScaleFactors(focalLength, aspectRatio);
    var s := ScaleFactors(focalLength, aspectRatio);
    if aspectRatio > 1.0 {
      assert InverseMatrix(p, focalLength, aspectRatio) == ProjectionMatrix((1.0 / focalLength) * aspectRatio, 1.0 / focalLength, p.inverse);
    } else {
      assert InverseMatrix(p, focalLength, aspectRatio) == ProjectionMatrix(1.0 / focalLength, (1.0 / focalLength) / aspectRatio, p.inverse);
    }
    assert ScaledPair(p, focalLength, aspectRatio).inverse == ProjectionMatrix(1.0 / s.0, 1.0 / s.1, p.inverse);
  }
}
