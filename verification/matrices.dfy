/**
 * The dimension-independent part of `matrix.ts` (`Mat2Math`, `Mat3Math`,
 * `Mat4Math`). A matrix is a tuple of COLUMNS: `m[j][i]` is the entry in
 * row `i` of column `j`, and `apply(m, v)` is the sum of the columns scaled
 * by the components of `v`.
 */
module Matrices {
  import opened Vectors

  type Mat = seq<Vec>

  /** `m` is a `|m|`-by-`|m|` matrix. */
  predicate IsSquare(m: Mat) {
    AllDim(m, |m|)
  }

  /** Row `i` of `m`. */
  function Row(m: Mat, i: nat): (r: Vec)
    requires IsSquare(m) && i < |m|
    ensures |r| == |m|
    ensures forall k :: 0 <= k < |m| ==> r[k] == m[k][i]
  {
    seq(|m|, k requires 0 <= k < |m| => m[k][i])
  }

  // ---------------------------------------------------------------------
  // Constructors
  // ---------------------------------------------------------------------

  /** `diagonal(...d)`: column `j` holds `d[j]` at row `j` and zeros elsewhere. */
  function Diagonal(d: Vec): (r: Mat)
    ensures |r| == |d| && IsSquare(r)
    ensures forall j, i :: 0 <= j < |d| && 0 <= i < |d| ==> r[j][i] == if i == j then d[j] else 0.0
  {
    seq(|d|, j requires 0 <= j < |d| => seq(|d|, i => if i == j then d[j] else 0.0))
  }

  /** `identity()`: `diagonal(1, ..., 1)`; its columns are the unit vectors. */
  function Identity(n: nat): (r: Mat)
    ensures |r| == n && IsSquare(r)
    ensures forall j :: 0 <= j < n ==> r[j] == Basis(n, j)
  {
    var r := Diagonal(seq(n, _ => 1.0));
    assert forall j :: 0 <= j < n ==> r[j] == Basis(n, j);
    r
  }

  /** `outer(v1, v2)`: column `j` is `v1` scaled by `v2[j]`. */
  function Outer(v1: Vec, v2: Vec): (r: Mat)
    requires |v1| == |v2|
    ensures |r| == |v1| && IsSquare(r)
    ensures forall j, i :: 0 <= j < |v1| && 0 <= i < |v1| ==> r[j][i] == v1[i] * v2[j]
  {
    seq(|v2|, j requires 0 <= j < |v2| => Vectors.Scale(v1, v2[j]))
  }

  // ---------------------------------------------------------------------
  // Column-wise arithmetic
  // ---------------------------------------------------------------------

  function Neg(m: Mat): (r: Mat)
    requires IsSquare(m)
    ensures |r| == |m| && IsSquare(r)
    ensures forall j :: 0 <= j < |m| ==> r[j] == Vectors.Neg(m[j])
  {
    seq(|m|, j requires 0 <= j < |m| => Vectors.Neg(m[j]))
  }

  function Scale(m: Mat, f: real): (r: Mat)
    requires IsSquare(m)
    ensures |r| == |m| && IsSquare(r)
    ensures forall j :: 0 <= j < |m| ==> r[j] == Vectors.Scale(m[j], f)
  {
    seq(|m|, j requires 0 <= j < |m| => Vectors.Scale(m[j], f))
  }

  function Add(m1: Mat, m2: Mat): (r: Mat)
    requires IsSquare(m1) && IsSquare(m2) && |m1| == |m2|
    ensures |r| == |m1| && IsSquare(r)
    ensures forall j :: 0 <= j < |m1| ==> r[j] == Vectors.Add(m1[j], m2[j])
  {
    seq(|m1|, j requires 0 <= j < |m1| => Vectors.Add(m1[j], m2[j]))
  }

  /** Kept beside `Add` as its own member because `matrix.ts` defines `sub` separately. */
  function Sub(m1: Mat, m2: Mat): (r: Mat)
    requires IsSquare(m1) && IsSquare(m2) && |m1| == |m2|
    ensures |r| == |m1| && IsSquare(r)
    ensures forall j :: 0 <= j < |m1| ==> r[j] == Vectors.Sub(m1[j], m2[j])
  {
    seq(|m1|, j requires 0 <= j < |m1| => Vectors.Sub(m1[j], m2[j]))
  }

  // ---------------------------------------------------------------------
  // Products
  // ---------------------------------------------------------------------

  /** The first `n` columns of `m` scaled by the matching components of `v`, summed. */
  function Combination(m: Mat, v: Vec, n: nat): (r: Vec)
    requires IsSquare(m) && |v| == |m| && n <= |m|
    ensures |r| == |m|
  {
    if n == 0 then Zero(|m|)
    else Vectors.Add(Combination(m, v, n - 1), Vectors.Scale(m[n - 1], v[n - 1]))
  }

  /** `apply(m, v)`: `addAll(scale(m[0], v[0]), scale(m[1], v[1]), ...)`. */
  function Apply(m: Mat, v: Vec): (r: Vec)
    requires IsSquare(m) && |v| == |m|
    ensures |r| == |m|
  {
    Combination(m, v, |m|)
  }

  /** `mul(m1, m2)`: column `j` of the product is `apply(m1, m2[j])`. */
  function Mul(m1: Mat, m2: Mat): (r: Mat)
    requires IsSquare(m1) && IsSquare(m2) && |m1| == |m2|
    ensures |r| == |m1| && IsSquare(r)
    ensures forall j :: 0 <= j < |m1| ==> r[j] == Apply(m1, m2[j])
  {
    seq(|m2|, j requires 0 <= j < |m2| => Apply(m1, m2[j]))
  }

  /** `transpose(m)`: column `j` of the result is row `j` of `m`. */
  function Transpose(m: Mat): (r: Mat)
    requires IsSquare(m)
    ensures |r| == |m| && IsSquare(r)
    ensures forall j, i :: 0 <= j < |m| && 0 <= i < |m| ==> r[j][i] == m[i][j]
  {
    seq(|m|, j requires 0 <= j < |m| => Row(m, j))
  }

  /** `projectionOn(v)`: `outer(v, v)` divided by the squared length of `v`. */
  function ProjectionOn(v: Vec): (r: Mat)
    requires LengthSquared(v) != 0.0
    ensures |r| == |v| && IsSquare(r)
  {
    Scale(Outer(v, v), 1.0 / LengthSquared(v))
  }

  /**
   * `scalingAlong(v, parallel, perpendicular)` of `Mat2Math`/`Mat3Math`:
   * equal factors give a uniform diagonal; otherwise the parallel and
   * perpendicular projections are scaled and added (a factor of exactly 1
   * skips its scaling).
   */
  function ScalingAlong(v: Vec, parallel: real, perpendicular: real): (r: Mat)
    requires parallel == perpendicular || LengthSquared(v) != 0.0
    ensures |r| == |v| && IsSquare(r)
  {
    if parallel == perpendicular then Diagonal(seq(|v|, _ => parallel))
    else
      var parallelProj := ProjectionOn(v);
      var perpendicularProj := Sub(Identity(|v|), ProjectionOn(v));
      Add(if parallel == 1.0 then parallelProj else Scale(parallelProj, parallel),
          if perpendicular == 1.0 then perpendicularProj else Scale(perpendicularProj, perpendicular))
  }

  /** `cast`: `m` in the upper-left corner of an `n`-by-`n` identity. */
  function Cast(m: Mat, n: nat): (r: Mat)
    requires IsSquare(m) && |m| <= n
    ensures |r| == n && IsSquare(r)
    ensures forall j, i :: 0 <= j < |m| && 0 <= i < |m| ==> r[j][i] == m[j][i]
    ensures forall j, i :: 0 <= j < n && 0 <= i < n && (|m| <= j || |m| <= i) ==> r[j][i] == if i == j then 1.0 else 0.0
  {
    seq(n, j requires 0 <= j < n =>
      seq(n, i requires 0 <= i < n =>
        if j < |m| && i < |m| then m[j][i] else if i == j then 1.0 else 0.0))
  }

  /** The columns of `m`, one after the other. */
  function ColumnMajorArray(m: Mat): seq<real>
  {
    if |m| == 0 then [] else ColumnMajorArray(m[..|m| - 1]) + m[|m| - 1]
  }

  /** Two matrices of the same size are equal when all their entries are. */
  lemma EqualByEntries(a: Mat, b: Mat)
    requires IsSquare(a) && IsSquare(b) && |a| == |b|
    requires forall j, i :: 0 <= j < |a| && 0 <= i < |a| ==> a[j][i] == b[j][i]
    ensures a == b
  {
    assert forall j :: 0 <= j < |a| ==> a[j] == b[j];
  }

  /** Two 2-by-2 matrices with the same four entries are equal. */
  lemma Equal2(a: Mat, b: Mat)
    requires |a| == 2 && IsSquare(a) && |b| == 2 && IsSquare(b)
    requires a[0][0] == b[0][0] && a[0][1] == b[0][1] && a[1][0] == b[1][0] && a[1][1] == b[1][1]
    ensures a == b
  {
    EqualByEntries(a, b);
  }

  /** Two 3-by-3 matrices with the same nine entries are equal. */
  lemma Equal3(a: Mat, b: Mat)
    requires |a| == 3 && IsSquare(a) && |b| == 3 && IsSquare(b)
    requires a[0][0] == b[0][0] && a[0][1] == b[0][1] && a[0][2] == b[0][2]
    requires a[1][0] == b[1][0] && a[1][1] == b[1][1] && a[1][2] == b[1][2]
    requires a[2][0] == b[2][0] && a[2][1] == b[2][1] && a[2][2] == b[2][2]
    ensures a == b
  {
    EqualByEntries(a, b);
  }

  // ---------------------------------------------------------------------
  // Entry-wise view of products
  // ---------------------------------------------------------------------

  lemma {:induction false} CombinationEntry(m: Mat, v: Vec, n: nat, i: nat)
    requires IsSquare(m) && |v| == |m| && n <= |m| && i < |m|
    ensures Combination(m, v, n)[i] == DotN(Row(m, i), v, n)
  {
    if n > 0 {
      CombinationEntry(m, v, n - 1, i);
    }
  }

  /** Entry `i` of `apply(m, v)` is row `i` of `m` dotted with `v`. */
  lemma ApplyEntry(m: Mat, v: Vec)
    requires IsSquare(m) && |v| == |m|
    ensures forall i :: 0 <= i < |m| ==> Apply(m, v)[i] == Dot(Row(m, i), v)
  {
    forall i | 0 <= i < |m|
      ensures Apply(m, v)[i] == Dot(Row(m, i), v)
    {
      CombinationEntry(m, v, |m|, i);
    }
  }

  /** Entry `(j, i)` of `mul(m1, m2)` is row `i` of `m1` dotted with column `j` of `m2`. */
  lemma MulEntry(m1: Mat, m2: Mat)
    requires IsSquare(m1) && IsSquare(m2) && |m1| == |m2|
    ensures forall j, i :: 0 <= j < |m1| && 0 <= i < |m1| ==> Mul(m1, m2)[j][i] == Dot(Row(m1, i), m2[j])
  {
    forall j | 0 <= j < |m1|
      ensures forall i :: 0 <= i < |m1| ==> Mul(m1, m2)[j][i] == Dot(Row(m1, i), m2[j])
    {
      ApplyEntry(m1, m2[j]);
    }
  }

  /** The product of two 2-by-2 matrices, entry by entry. */
  lemma Mul2Entries(m1: Mat, m2: Mat)
    requires IsSquare(m1) && IsSquare(m2) && |m1| == |m2| == 2
    ensures Mul(m1, m2)[0][0] == m1[0][0] * m2[0][0] + m1[1][0] * m2[0][1]
    ensures Mul(m1, m2)[0][1] == m1[0][1] * m2[0][0] + m1[1][1] * m2[0][1]
    ensures Mul(m1, m2)[1][0] == m1[0][0] * m2[1][0] + m1[1][0] * m2[1][1]
    ensures Mul(m1, m2)[1][1] == m1[0][1] * m2[1][0] + m1[1][1] * m2[1][1]
  {
    assert Mul(m1, m2)[0][0] == m1[0][0] * m2[0][0] + m1[1][0] * m2[0][1] by {
      MulEntry(m1, m2);
      Dot2(Row(m1, 0), m2[0]);
    }
    assert Mul(m1, m2)[0][1] == m1[0][1] * m2[0][0] + m1[1][1] * m2[0][1] by {
      MulEntry(m1, m2);
      Dot2(Row(m1, 1), m2[0]);
    }
    assert Mul(m1, m2)[1][0] == m1[0][0] * m2[1][0] + m1[1][0] * m2[1][1] by {
      MulEntry(m1, m2);
      Dot2(Row(m1, 0), m2[1]);
    }
    assert Mul(m1, m2)[1][1] == m1[0][1] * m2[1][0] + m1[1][1] * m2[1][1] by {
      MulEntry(m1, m2);
      Dot2(Row(m1, 1), m2[1]);
    }
  }

  /** Entry `(j, i)` of a product: row `i` of `m1` dotted with column `j` of `m2`. */
  lemma MulAt(m1: Mat, m2: Mat, j: nat, i: nat)
    requires IsSquare(m1) && IsSquare(m2) && |m1| == |m2| && j < |m1| && i < |m1|
    ensures Mul(m1, m2)[j][i] == Dot(Row(m1, i), m2[j])
  {
    CombinationEntry(m1, m2[j], |m1|, i);
  }

  lemma Mul2Entry(m1: Mat, m2: Mat, j: nat, i: nat)
    requires IsSquare(m1) && IsSquare(m2) && |m1| == |m2| == 2 && j < 2 && i < 2
    ensures Mul(m1, m2)[j][i] == m1[0][i] * m2[j][0] + m1[1][i] * m2[j][1]
  {
    MulAt(m1, m2, j, i);
    Dot2(Row(m1, i), m2[j]);
  }

  lemma Mul3Entry(m1: Mat, m2: Mat, j: nat, i: nat)
    requires IsSquare(m1) && IsSquare(m2) && |m1| == |m2| == 3 && j < 3 && i < 3
    ensures Mul(m1, m2)[j][i] == m1[0][i] * m2[j][0] + m1[1][i] * m2[j][1] + m1[2][i] * m2[j][2]
  {
    MulAt(m1, m2, j, i);
    Dot3(Row(m1, i), m2[j]);
  }

  /** The product of two 3-by-3 matrices, entry by entry. */
  lemma Mul3Entries(m1: Mat, m2: Mat)
    requires IsSquare(m1) && IsSquare(m2) && |m1| == |m2| == 3
    ensures forall j, i :: 0 <= j < 3 && 0 <= i < 3 ==>
      Mul(m1, m2)[j][i] == m1[0][i] * m2[j][0] + m1[1][i] * m2[j][1] + m1[2][i] * m2[j][2]
  {
    forall j, i | 0 <= j < 3 && 0 <= i < 3
      ensures Mul(m1, m2)[j][i] == m1[0][i] * m2[j][0] + m1[1][i] * m2[j][1] + m1[2][i] * m2[j][2]
    {
      Mul3Entry(m1, m2, j, i);
    }
  }


  lemma Mul4Entry(m1: Mat, m2: Mat, j: nat, i: nat)
    requires IsSquare(m1) && IsSquare(m2) && |m1| == |m2| == 4 && j < 4 && i < 4
    ensures Mul(m1, m2)[j][i] == m1[0][i] * m2[j][0] + m1[1][i] * m2[j][1] + m1[2][i] * m2[j][2] + m1[3][i] * m2[j][3]
  {
    MulAt(m1, m2, j, i);
    Dot4(Row(m1, i), m2[j]);
  }

  /** Column `j` of the product of two 4-by-4 matrices, entry by entry. */
  lemma Mul4Column(m1: Mat, m2: Mat, j: nat)
    requires IsSquare(m1) && IsSquare(m2) && |m1| == |m2| == 4 && j < 4
    ensures Mul(m1, m2)[j][0] == m1[0][0] * m2[j][0] + m1[1][0] * m2[j][1] + m1[2][0] * m2[j][2] + m1[3][0] * m2[j][3]
    ensures Mul(m1, m2)[j][1] == m1[0][1] * m2[j][0] + m1[1][1] * m2[j][1] + m1[2][1] * m2[j][2] + m1[3][1] * m2[j][3]
    ensures Mul(m1, m2)[j][2] == m1[0][2] * m2[j][0] + m1[1][2] * m2[j][1] + m1[2][2] * m2[j][2] + m1[3][2] * m2[j][3]
    ensures Mul(m1, m2)[j][3] == m1[0][3] * m2[j][0] + m1[1][3] * m2[j][1] + m1[2][3] * m2[j][2] + m1[3][3] * m2[j][3]
  {
    assert Mul(m1, m2)[j][0] == m1[0][0] * m2[j][0] + m1[1][0] * m2[j][1] + m1[2][0] * m2[j][2] + m1[3][0] * m2[j][3] by {
      Mul4Entry(m1, m2, j, 0);
    }
    assert Mul(m1, m2)[j][1] == m1[0][1] * m2[j][0] + m1[1][1] * m2[j][1] + m1[2][1] * m2[j][2] + m1[3][1] * m2[j][3] by {
      Mul4Entry(m1, m2, j, 1);
    }
    assert Mul(m1, m2)[j][2] == m1[0][2] * m2[j][0] + m1[1][2] * m2[j][1] + m1[2][2] * m2[j][2] + m1[3][2] * m2[j][3] by {
      Mul4Entry(m1, m2, j, 2);
    }
    assert Mul(m1, m2)[j][3] == m1[0][3] * m2[j][0] + m1[1][3] * m2[j][1] + m1[2][3] * m2[j][2] + m1[3][3] * m2[j][3] by {
      Mul4Entry(m1, m2, j, 3);
    }
  }

  /** The product of two 4-by-4 matrices, entry by entry. */
  lemma Mul4Entries(m1: Mat, m2: Mat)
    requires IsSquare(m1) && IsSquare(m2) && |m1| == |m2| == 4
    ensures forall j, i :: 0 <= j < 4 && 0 <= i < 4 ==>
      Mul(m1, m2)[j][i] == m1[0][i] * m2[j][0] + m1[1][i] * m2[j][1] + m1[2][i] * m2[j][2] + m1[3][i] * m2[j][3]
  {
    forall j, i | 0 <= j < 4 && 0 <= i < 4
      ensures Mul(m1, m2)[j][i] == m1[0][i] * m2[j][0] + m1[1][i] * m2[j][1] + m1[2][i] * m2[j][2] + m1[3][i] * m2[j][3]
    {
      Mul4Entry(m1, m2, j, i);
    }
  }


  // ---------------------------------------------------------------------
  // Linearity of apply
  // ---------------------------------------------------------------------

  lemma {:induction false} DotNZero(a: Vec, n: nat)
    requires n <= |a|
    ensures DotN(a, Zero(|a|), n) == 0.0
  {
    if n > 0 {
      DotNZero(a, n - 1);
    }
  }

  lemma ApplyZero(m: Mat)
    requires IsSquare(m)
    ensures Apply(m, Zero(|m|)) == Zero(|m|)
  {
    ApplyEntry(m, Zero(|m|));
    forall i | 0 <= i < |m|
      ensures Apply(m, Zero(|m|))[i] == 0.0
    {
      DotNZero(Row(m, i), |m|);
    }
  }

  lemma ApplyAdd(m: Mat, a: Vec, b: Vec)
    requires IsSquare(m) && |a| == |b| == |m|
    ensures Apply(m, Vectors.Add(a, b)) == Vectors.Add(Apply(m, a), Apply(m, b))
  {
    ApplyEntry(m, Vectors.Add(a, b));
    ApplyEntry(m, a);
    ApplyEntry(m, b);
    forall i | 0 <= i < |m|
      ensures Apply(m, Vectors.Add(a, b))[i] == Apply(m, a)[i] + Apply(m, b)[i]
    {
      DotAddRight(Row(m, i), a, b);
    }
  }

  lemma ApplyScale(m: Mat, a: Vec, s: real)
    requires IsSquare(m) && |a| == |m|
    ensures Apply(m, Vectors.Scale(a, s)) == Vectors.Scale(Apply(m, a), s)
  {
    ApplyEntry(m, Vectors.Scale(a, s));
    ApplyEntry(m, a);
    forall i | 0 <= i < |m|
      ensures Apply(m, Vectors.Scale(a, s))[i] == Vectors.Scale(Apply(m, a), s)[i]
    {
      DotScaleRight(Row(m, i), a, s);
      assert Vectors.Scale(Apply(m, a), s)[i] == Apply(m, a)[i] * s;
    }
  }

  lemma ApplyAddMat(m1: Mat, m2: Mat, a: Vec)
    requires IsSquare(m1) && IsSquare(m2) && |m1| == |m2| == |a|
    ensures Apply(Add(m1, m2), a) == Vectors.Add(Apply(m1, a), Apply(m2, a))
  {
    ApplyEntry(Add(m1, m2), a);
    ApplyEntry(m1, a);
    ApplyEntry(m2, a);
    forall i | 0 <= i < |a|
      ensures Apply(Add(m1, m2), a)[i] == Apply(m1, a)[i] + Apply(m2, a)[i]
    {
      assert Row(Add(m1, m2), i) == Vectors.Add(Row(m1, i), Row(m2, i));
      DotAddLeft(Row(m1, i), Row(m2, i), a);
    }
  }

  lemma ApplyScaleMat(m: Mat, a: Vec, s: real)
    requires IsSquare(m) && |a| == |m|
    ensures Apply(Scale(m, s), a) == Vectors.Scale(Apply(m, a), s)
  {
    ApplyEntry(Scale(m, s), a);
    ApplyEntry(m, a);
    forall i | 0 <= i < |a|
      ensures Apply(Scale(m, s), a)[i] == Vectors.Scale(Apply(m, a), s)[i]
    {
      forall k | 0 <= k < |m|
        ensures Row(Scale(m, s), i)[k] == Vectors.Scale(Row(m, i), s)[k]
      {
        assert Scale(m, s)[k] == Vectors.Scale(m[k], s);
      }
      assert Row(Scale(m, s), i) == Vectors.Scale(Row(m, i), s);
      DotScaleLeft(Row(m, i), a, s);
      assert Vectors.Scale(Apply(m, a), s)[i] == Apply(m, a)[i] * s;
    }
  }

  /** Negating a matrix is scaling it by `-1`, column by column. */
  lemma NegIsScale(m: Mat)
    requires IsSquare(m)
    ensures Neg(m) == Scale(m, -1.0)
  {
    forall j | 0 <= j < |m|
      ensures Neg(m)[j] == Scale(m, -1.0)[j]
    {
      Vectors.NegIsScale(m[j]);
    }
  }

  /** Applying a negated matrix negates the result. */
  lemma ApplyNeg(m: Mat, a: Vec)
    requires IsSquare(m) && |a| == |m|
    ensures Apply(Neg(m), a) == Vectors.Neg(Apply(m, a))
  {
    NegIsScale(m);
    ApplyScaleMat(m, a, -1.0);
    Vectors.NegIsScale(Apply(m, a));
  }

  lemma {:induction false} CombinationOfProduct(m1: Mat, m2: Mat, v: Vec, n: nat)
    requires IsSquare(m1) && IsSquare(m2) && |m1| == |m2| == |v| && n <= |v|
    ensures Apply(m1, Combination(m2, v, n)) == Combination(Mul(m1, m2), v, n)
  {
    if n == 0 {
      ApplyZero(m1);
    } else {
      CombinationOfProduct(m1, m2, v, n - 1);
      var c := Combination(m2, v, n - 1);
      var s := Vectors.Scale(m2[n - 1], v[n - 1]);
      ApplyAdd(m1, c, s);
      ApplyScale(m1, m2[n - 1], v[n - 1]);
    }
  }

  /** Applying a product is applying its factors in turn. */
  lemma ApplyMul(m1: Mat, m2: Mat, v: Vec)
    requires IsSquare(m1) && IsSquare(m2) && |m1| == |m2| == |v|
    ensures Apply(m1, Apply(m2, v)) == Apply(Mul(m1, m2), v)
  {
    CombinationOfProduct(m1, m2, v, |v|);
  }

  lemma ApplyIdentity(v: Vec)
    ensures Apply(Identity(|v|), v) == v
  {
    var n := |v|;
    ApplyEntry(Identity(n), v);
    forall i | 0 <= i < n
      ensures Apply(Identity(n), v)[i] == v[i]
    {
      assert Row(Identity(n), i) == Basis(n, i);
      DotBasis(v, i);
    }
  }

  lemma ApplyBasis(m: Mat, j: nat)
    requires IsSquare(m) && j < |m|
    ensures Apply(m, Basis(|m|, j)) == m[j]
  {
    ApplyEntry(m, Basis(|m|, j));
    forall i | 0 <= i < |m|
      ensures Apply(m, Basis(|m|, j))[i] == m[j][i]
    {
      DotBasis(Row(m, i), j);
    }
  }

  // ---------------------------------------------------------------------
  // Laws checked by the matrix test suite
  // ---------------------------------------------------------------------

  lemma AddCommutative(m1: Mat, m2: Mat)
    requires IsSquare(m1) && IsSquare(m2) && |m1| == |m2|
    ensures Add(m1, m2) == Add(m2, m1)
  {
    forall j | 0 <= j < |m1| {
      Vectors.AddCommutative(m1[j], m2[j]);
    }
  }

  lemma AddAssociative(m1: Mat, m2: Mat, m3: Mat)
    requires IsSquare(m1) && IsSquare(m2) && IsSquare(m3) && |m1| == |m2| == |m3|
    ensures Add(m1, Add(m2, m3)) == Add(Add(m1, m2), m3)
  {
    forall j | 0 <= j < |m1| {
      Vectors.AddAssociative(m1[j], m2[j], m3[j]);
    }
  }

  lemma SubUndoesAdd(m1: Mat, m2: Mat)
    requires IsSquare(m1) && IsSquare(m2) && |m1| == |m2|
    ensures Sub(Add(m1, m2), m2) == m1
  {
    forall j | 0 <= j < |m1| {
      Vectors.SubUndoesAdd(m1[j], m2[j]);
    }
  }

  lemma ScaleAssociative(m: Mat, s1: real, s2: real)
    requires IsSquare(m)
    ensures Scale(m, s1 * s2) == Scale(Scale(m, s1), s2)
  {
    forall j | 0 <= j < |m| {
      Vectors.ScaleAssociative(m[j], s1, s2);
    }
  }

  lemma ScaleDistributesOverAdd(m1: Mat, m2: Mat, s: real)
    requires IsSquare(m1) && IsSquare(m2) && |m1| == |m2|
    ensures Scale(Add(m1, m2), s) == Add(Scale(m1, s), Scale(m2, s))
  {
    forall j | 0 <= j < |m1| {
      Vectors.ScaleDistributesOverAdd(m1[j], m2[j], s);
    }
  }

  lemma ScaleDistributesOverScalarAdd(m: Mat, s1: real, s2: real)
    requires IsSquare(m)
    ensures Scale(m, s1 + s2) == Add(Scale(m, s1), Scale(m, s2))
  {
    forall j | 0 <= j < |m| {
      Vectors.ScaleDistributesOverScalarAdd(m[j], s1, s2);
    }
  }

  /** The identity is neutral for `mul` on both sides. */
  lemma MulIdentity(m: Mat)
    requires IsSquare(m)
    ensures Mul(m, Identity(|m|)) == m
    ensures Mul(Identity(|m|), m) == m
  {
    forall j | 0 <= j < |m|
      ensures Mul(m, Identity(|m|))[j] == m[j]
      ensures Mul(Identity(|m|), m)[j] == m[j]
    {
      ApplyBasis(m, j);
      ApplyIdentity(m[j]);
    }
  }

  lemma MulAssociative(m1: Mat, m2: Mat, m3: Mat)
    requires IsSquare(m1) && IsSquare(m2) && IsSquare(m3) && |m1| == |m2| == |m3|
    ensures Mul(m1, Mul(m2, m3)) == Mul(Mul(m1, m2), m3)
  {
    forall j | 0 <= j < |m1|
      ensures Mul(m1, Mul(m2, m3))[j] == Mul(Mul(m1, m2), m3)[j]
    {
      ApplyMul(m1, m2, m3[j]);
    }
  }

  /** `(m1 + m2) m3 = m1 m3 + m2 m3`. */
  lemma MulDistributesRight(m1: Mat, m2: Mat, m3: Mat)
    requires IsSquare(m1) && IsSquare(m2) && IsSquare(m3) && |m1| == |m2| == |m3|
    ensures Mul(Add(m1, m2), m3) == Add(Mul(m1, m3), Mul(m2, m3))
  {
    forall j | 0 <= j < |m1|
      ensures Mul(Add(m1, m2), m3)[j] == Add(Mul(m1, m3), Mul(m2, m3))[j]
    {
      ApplyAddMat(m1, m2, m3[j]);
    }
  }

  /** `m1 (m2 + m3) = m1 m2 + m1 m3`. */
  lemma MulDistributesLeft(m1: Mat, m2: Mat, m3: Mat)
    requires IsSquare(m1) && IsSquare(m2) && IsSquare(m3) && |m1| == |m2| == |m3|
    ensures Mul(m1, Add(m2, m3)) == Add(Mul(m1, m2), Mul(m1, m3))
  {
    forall j | 0 <= j < |m1|
      ensures Mul(m1, Add(m2, m3))[j] == Add(Mul(m1, m2), Mul(m1, m3))[j]
    {
      ApplyAdd(m1, m2[j], m3[j]);
    }
  }

  /** A scalar factor moves freely through a product. */
  lemma MulScalarFactorization(m1: Mat, m2: Mat, s: real)
    requires IsSquare(m1) && IsSquare(m2) && |m1| == |m2|
    ensures Mul(m1, Scale(m2, s)) == Scale(Mul(m1, m2), s)
    ensures Mul(Scale(m1, s), m2) == Scale(Mul(m1, m2), s)
  {
    forall j | 0 <= j < |m1|
      ensures Mul(m1, Scale(m2, s))[j] == Scale(Mul(m1, m2), s)[j]
      ensures Mul(Scale(m1, s), m2)[j] == Scale(Mul(m1, m2), s)[j]
    {
      ApplyScale(m1, m2[j], s);
      ApplyScaleMat(m1, m2[j], s);
    }
  }

  /** Row `i` of the transpose is column `i`. */
  lemma RowOfTranspose(m: Mat, i: nat)
    requires IsSquare(m) && i < |m|
    ensures Row(Transpose(m), i) == m[i]
  {
  }

  /**
   * `prod` multiplies the row vector `v` by `m`: it is `m` transposed
   * applied to `v`.
   */
  lemma ProdIsTransposeApply(v: Vec, m: Mat)
    requires IsSquare(m) && |v| == |m|
    ensures Prod(v, m) == Apply(Transpose(m), v)
  {
    ApplyEntry(Transpose(m), v);
    forall i | 0 <= i < |m|
      ensures Prod(v, m)[i] == Apply(Transpose(m), v)[i]
    {
      RowOfTranspose(m, i);
      DotCommutative(v, m[i]);
    }
  }

  lemma TransposeInvolution(m: Mat)
    requires IsSquare(m)
    ensures Transpose(Transpose(m)) == m
  {
    assert forall j :: 0 <= j < |m| ==> Transpose(Transpose(m))[j] == m[j];
  }

  /** The transpose of a product is the product of the transposes, reversed. */
  lemma TransposeMul(m1: Mat, m2: Mat)
    requires IsSquare(m1) && IsSquare(m2) && |m1| == |m2|
    ensures Transpose(Mul(m1, m2)) == Mul(Transpose(m2), Transpose(m1))
  {
    var n := |m1|;
    var a := Transpose(Mul(m1, m2));
    var b := Mul(Transpose(m2), Transpose(m1));
    MulEntry(m1, m2);
    MulEntry(Transpose(m2), Transpose(m1));
    forall j, i | 0 <= j < n && 0 <= i < n
      ensures a[j][i] == b[j][i]
    {
      assert Row(Transpose(m2), i) == m2[i];
      assert Transpose(m1)[j] == Row(m1, j);
      DotCommutative(m2[i], Row(m1, j));
    }
    assert forall j :: 0 <= j < n ==> a[j] == b[j];
  }

  lemma {:induction false} ColumnIndexBelow(n: nat, j: nat, i: nat, c: nat)
    requires j < c && i < n
    ensures n * j + i < n * c
    decreases c
  {
    assert n * c == n * (c - 1) + n;
    if j < c - 1 {
      ColumnIndexBelow(n, j, i, c - 1);
    }
  }

  /** `columnMajorArray(m)` has `n * |m|` entries. */
  lemma {:induction false} ColumnMajorArrayLength(m: Mat, n: nat)
    requires AllDim(m, n)
    ensures |ColumnMajorArray(m)| == n * |m|
  {
    if |m| > 0 {
      var c := |m| - 1;
      ColumnMajorArrayLength(m[..c], n);
      assert n * |m| == n * c + n;
    }
  }

  /** Entry `n * j + i` of `columnMajorArray(m)` is `m[j][i]`. */
  lemma {:induction false} ColumnMajorArrayEntry(m: Mat, n: nat, j: nat, i: nat)
    requires AllDim(m, n) && j < |m| && i < n
    ensures n * j + i < |ColumnMajorArray(m)|
    ensures ColumnMajorArray(m)[n * j + i] == m[j][i]
  {
    var c := |m| - 1;
    var init := m[..c];
    ColumnMajorArrayLength(init, n);
    ColumnMajorArrayLength(m, n);
    assert ColumnMajorArray(m) == ColumnMajorArray(init) + m[c];
    if j < c {
      ColumnIndexBelow(n, j, i, c);
      ColumnMajorArrayEntry(init, n, j, i);
      assert init[j] == m[j];
    } else {
      assert n * j == n * c;
    }
  }


  /** `apply(outer(v1, v2), w)` is `v1` scaled by `dot(v2, w)`. */
  lemma ApplyOuter(v1: Vec, v2: Vec, w: Vec)
    requires |v1| == |v2| == |w|
    ensures Apply(Outer(v1, v2), w) == Vectors.Scale(v1, Dot(v2, w))
  {
    var m := Outer(v1, v2);
    ApplyEntry(m, w);
    forall i | 0 <= i < |w|
      ensures Apply(m, w)[i] == v1[i] * Dot(v2, w)
    {
      assert Row(m, i) == Vectors.Scale(v2, v1[i]);
      DotScaleLeft(v2, w, v1[i]);
    }
  }

  /** With equal factors, `scalingAlong` is the uniform diagonal, whatever `v`. */
  lemma ScalingAlongUniform(v: Vec, p: real, w: Vec)
    requires |w| == |v|
    ensures ScalingAlong(v, p, p) == Diagonal(seq(|v|, _ => p))
    ensures Apply(ScalingAlong(v, p, p), w) == Vectors.Scale(w, p)
  {
    var n := |v|;
    var d := Diagonal(seq(n, _ => p));
    ApplyEntry(d, w);
    forall i | 0 <= i < n
      ensures Apply(d, w)[i] == Vectors.Scale(w, p)[i]
    {
      assert Row(d, i) == Vectors.Scale(Basis(n, i), p);
      DotScaleLeft(Basis(n, i), w, p);
      DotBasis(w, i);
    }
  }

  /** `projectionOn(v)` maps `w` to the multiple of `v` with the same dot product with `v`. */
  lemma ApplyProjectionOn(v: Vec, w: Vec)
    requires LengthSquared(v) != 0.0 && |w| == |v|
    ensures Apply(ProjectionOn(v), w) == Vectors.Scale(v, Dot(v, w) / LengthSquared(v))
  {
    var l, d := LengthSquared(v), Dot(v, w);
    var o := Outer(v, v);
    var a := Apply(ProjectionOn(v), w);
    var b := Vectors.Scale(v, d / l);
    assert a == Vectors.Scale(Apply(o, w), 1.0 / l) by {
      ApplyScaleMat(o, w, 1.0 / l);
    }
    assert Apply(o, w) == Vectors.Scale(v, d) by {
      ApplyOuter(v, v, w);
    }
    forall i | 0 <= i < |v|
      ensures a[i] == b[i]
    {
      ReciprocalFactor(v[i], d, l);
    }
  }

  lemma ReciprocalFactor(x: real, y: real, l: real)
    requires l != 0.0
    ensures x * y * (1.0 / l) == x * (y / l)
  {
  }

  /** Away from the uniform case, `scalingAlong` scales the projection on `v` and the rest separately. */
  lemma ApplyScalingAlong(v: Vec, parallel: real, perpendicular: real, w: Vec)
    requires LengthSquared(v) != 0.0 && |w| == |v| && parallel != perpendicular
    ensures var pw := Apply(ProjectionOn(v), w);
      Apply(ScalingAlong(v, parallel, perpendicular), w)
        == Vectors.Add(Vectors.Scale(pw, parallel), Vectors.Scale(Vectors.Sub(w, pw), perpendicular))
  {
    var n := |v|;
    var p := ProjectionOn(v);
    var q := Sub(Identity(n), p);
    var pw := Apply(p, w);
    ApplyIdentity(w);
    ApplyDistributesOverSub(Identity(n), p, w);
    var a := if parallel == 1.0 then p else Scale(p, parallel);
    var b := if perpendicular == 1.0 then q else Scale(q, perpendicular);
    ApplyAddMat(a, b, w);
    ApplyScaleMat(p, w, parallel);
    ApplyScaleMat(q, w, perpendicular);
    assert Apply(a, w) == Vectors.Scale(pw, parallel) by {
      if parallel == 1.0 {
        assert Vectors.Scale(pw, 1.0) == pw;
      }
    }
    assert Apply(b, w) == Vectors.Scale(Vectors.Sub(w, pw), perpendicular) by {
      if perpendicular == 1.0 {
        assert Vectors.Scale(Vectors.Sub(w, pw), 1.0) == Vectors.Sub(w, pw);
      }
    }
  }

  lemma ScaleZero(n: nat, s: real)
    ensures Vectors.Scale(Zero(n), s) == Zero(n)
  {
    assert forall i :: 0 <= i < n ==> Vectors.Scale(Zero(n), s)[i] == 0.0;
  }

  lemma AddZero(v: Vec)
    ensures Vectors.Add(v, Zero(|v|)) == v
  {
  }

  /** `scalingAlong(v, parallel, perpendicular)` scales `v` by `parallel`. */
  lemma ScalingAlongParallel(v: Vec, parallel: real, perpendicular: real)
    requires LengthSquared(v) != 0.0
    ensures Apply(ScalingAlong(v, parallel, perpendicular), v) == Vectors.Scale(v, parallel)
  {
    if parallel == perpendicular {
      ScalingAlongUniform(v, parallel, v);
    } else {
      var l := LengthSquared(v);
      ApplyProjectionOn(v, v);
      ApplyScalingAlong(v, parallel, perpendicular, v);
      var pv := Apply(ProjectionOn(v), v);
      assert pv == v by {
        assert Dot(v, v) / l == 1.0;
        assert pv == Vectors.Scale(v, 1.0);
      }
      var rest := Vectors.Sub(v, pv);
      assert rest == Zero(|v|);
      ScaleZero(|v|, perpendicular);
      AddZero(Vectors.Scale(v, parallel));
    }
  }

  /** `scalingAlong(v, parallel, perpendicular)` scales every vector orthogonal to `v` by `perpendicular`. */
  lemma ScalingAlongPerpendicular(v: Vec, parallel: real, perpendicular: real, w: Vec)
    requires LengthSquared(v) != 0.0
    requires |w| == |v| && Dot(v, w) == 0.0
    ensures Apply(ScalingAlong(v, parallel, perpendicular), w) == Vectors.Scale(w, perpendicular)
  {
    if parallel == perpendicular {
      ScalingAlongUniform(v, parallel, w);
    } else {
      ApplyProjectionOn(v, w);
      ApplyScalingAlong(v, parallel, perpendicular, w);
      var pw := Apply(ProjectionOn(v), w);
      assert pw == Zero(|v|) by {
        assert Dot(v, w) / LengthSquared(v) == 0.0;
        assert pw == Vectors.Scale(v, 0.0);
      }
      assert Vectors.Sub(w, pw) == w;
      ScaleZero(|v|, parallel);
      AddZero(Vectors.Scale(w, perpendicular));
      Vectors.AddCommutative(Zero(|v|), Vectors.Scale(w, perpendicular));
    }
  }

  lemma ApplyDistributesOverSub(m1: Mat, m2: Mat, a: Vec)
    requires IsSquare(m1) && IsSquare(m2) && |m1| == |m2| == |a|
    ensures Apply(Sub(m1, m2), a) == Vectors.Sub(Apply(m1, a), Apply(m2, a))
  {
    ApplyEntry(Sub(m1, m2), a);
    ApplyEntry(m1, a);
    ApplyEntry(m2, a);
    forall i | 0 <= i < |a|
      ensures Apply(Sub(m1, m2), a)[i] == Apply(m1, a)[i] - Apply(m2, a)[i]
    {
      assert Row(Sub(m1, m2), i) == Vectors.Sub(Row(m1, i), Row(m2, i));
      DotNSubLeft(Row(m1, i), Row(m2, i), a, |a|);
    }
  }

  /** Casting the identity gives the identity. */
  lemma CastIdentity(k: nat, n: nat)
    requires k <= n
    ensures Cast(Identity(k), n) == Identity(n)
  {
    var a := Cast(Identity(k), n);
    assert forall j :: 0 <= j < n ==> a[j] == Basis(n, j);
  }
}
