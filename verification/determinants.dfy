/**
 * The size-specific part of `matrix.ts`: `determinant` and `inverse` of
 * `Mat2Math`, `Mat3Math` and `Mat4Math`. Every `inverse` is the adjugate
 * scaled by `1 / determinant`, so the laws are stated for the adjugate
 * first and carried over to the inverse by one scaling lemma.
 */
module Determinants {
  import Vectors
  import opened Matrices

  predicate IsMat(m: Mat, n: nat) {
    |m| == n && IsSquare(m)
  }

  // ---------------------------------------------------------------------
  // Determinants
  // ---------------------------------------------------------------------

  /** The 2-by-2 determinant of the columns `(a00, a01)` and `(a10, a11)`. */
  function Det2Of(a00: real, a01: real, a10: real, a11: real): real {
    a00 * a11 - a01 * a10
  }

  /** The 3-by-3 determinant of the columns `(a00, a01, a02)`, `(a10, a11, a12)` and `(a20, a21, a22)`. */
  function Det3Of(a00: real, a01: real, a02: real, a10: real, a11: real, a12: real, a20: real, a21: real, a22: real): real {
    (a01 * a12 - a02 * a11) * a20 + (a02 * a10 - a00 * a12) * a21 + (a00 * a11 - a01 * a10) * a22
  }

  /** `Mat2Math.determinant`: the 2-D cross product of the columns. */
  function Det2(m: Mat): real
    requires IsMat(m, 2)
  {
    Vectors.Cross2(m[0], m[1])
  }

  /** `Mat3Math.determinant`: the triple product `dot(cross(m[0], m[1]), m[2])`. */
  function Det3(m: Mat): real
    requires IsMat(m, 3)
  {
    Vectors.Dot(Vectors.Cross(m[0], m[1]), m[2])
  }

  lemma Det2Expanded(m: Mat)
    requires IsMat(m, 2)
    ensures Det2(m) == Det2Of(m[0][0], m[0][1], m[1][0], m[1][1])
  {
  }

  lemma Det3Expanded(m: Mat)
    requires IsMat(m, 3)
    ensures Det3(m) == Det3Of(m[0][0], m[0][1], m[0][2], m[1][0], m[1][1], m[1][2], m[2][0], m[2][1], m[2][2])
  {
    Vectors.Dot3(Vectors.Cross(m[0], m[1]), m[2]);
  }

  /** `Mat4Math.subMat`: `m` without column `col` and without row `row`. */
  function SubMat(m: Mat, col: nat, row: nat): (r: Mat)
    requires IsMat(m, 4) && col < 4 && row < 4
    ensures IsMat(r, 3)
    ensures forall j, i :: 0 <= j < 3 && 0 <= i < 3 ==>
      r[j][i] == m[if j < col then j else j + 1][if i < row then i else i + 1]
  {
    var columns := Vectors.DeleteComponent(m, col);
    seq(3, k requires 0 <= k < 3 => Vectors.DeleteComponent(columns[k], row))
  }

  /** `Mat4Math.minor`. */
  function Minor(m: Mat, col: nat, row: nat): real
    requires IsMat(m, 4) && col < 4 && row < 4
  {
    Det3(SubMat(m, col, row))
  }

  /** `Mat4Math.determinant`: expansion along column 0. */
  function Det4(m: Mat): real
    requires IsMat(m, 4)
  {
    m[0][0] * Minor(m, 0, 0) - m[0][1] * Minor(m, 0, 1) + m[0][2] * Minor(m, 0, 2) - m[0][3] * Minor(m, 0, 3)
  }

  // ---------------------------------------------------------------------
  // Adjugates and inverses
  // ---------------------------------------------------------------------

  /** The matrix `Mat2Math.inverse` scales. */
  function Adjugate2(m: Mat): (r: Mat)
    requires IsMat(m, 2)
    ensures IsMat(r, 2)
  {
    [[m[1][1], -m[0][1]], [-m[1][0], m[0][0]]]
  }

  /** The matrix `Mat3Math.inverse` scales: the transpose of the three pairwise cross products. */
  function Adjugate3(m: Mat): (r: Mat)
    requires IsMat(m, 3)
    ensures IsMat(r, 3)
    ensures r[0][0] == m[1][1] * m[2][2] - m[1][2] * m[2][1]
    ensures r[0][1] == m[2][1] * m[0][2] - m[2][2] * m[0][1]
    ensures r[0][2] == m[0][1] * m[1][2] - m[0][2] * m[1][1]
    ensures r[1][0] == m[1][2] * m[2][0] - m[1][0] * m[2][2]
    ensures r[1][1] == m[2][2] * m[0][0] - m[2][0] * m[0][2]
    ensures r[1][2] == m[0][2] * m[1][0] - m[0][0] * m[1][2]
    ensures r[2][0] == m[1][0] * m[2][1] - m[1][1] * m[2][0]
    ensures r[2][1] == m[2][0] * m[0][1] - m[2][1] * m[0][0]
    ensures r[2][2] == m[0][0] * m[1][1] - m[0][1] * m[1][0]
  {
    Transpose([Vectors.Cross(m[1], m[2]), Vectors.Cross(m[2], m[0]), Vectors.Cross(m[0], m[1])])
  }

  function Sign(k: nat): real {
    if k % 2 == 0 then 1.0 else -1.0
  }

  /** The matrix `Mat4Math.inverse` scales: entry `(j, i)` is the signed minor `(i, j)`. */
  function Adjugate4(m: Mat): (r: Mat)
    requires IsMat(m, 4)
    ensures IsMat(r, 4)
  {
    seq(4, j requires 0 <= j < 4 => seq(4, i requires 0 <= i < 4 => Sign(i + j) * Minor(m, i, j)))
  }

  function Inverse2(m: Mat): (r: Mat)
    requires IsMat(m, 2) && Det2(m) != 0.0
    ensures IsMat(r, 2)
  {
    Matrices.Scale(Adjugate2(m), 1.0 / Det2(m))
  }

  function Inverse3(m: Mat): (r: Mat)
    requires IsMat(m, 3) && Det3(m) != 0.0
    ensures IsMat(r, 3)
  {
    var v1x2 := Vectors.Cross(m[1], m[2]);
    var v2x0 := Vectors.Cross(m[2], m[0]);
    var v0x1 := Vectors.Cross(m[0], m[1]);
    Matrices.Scale(Transpose([v1x2, v2x0, v0x1]), 1.0 / Vectors.Dot(v0x1, m[2]))
  }

  function Inverse4(m: Mat): (r: Mat)
    requires IsMat(m, 4) && Det4(m) != 0.0
    ensures IsMat(r, 4)
  {
    Matrices.Scale(Adjugate4(m), 1.0 / Det4(m))
  }

  // ---------------------------------------------------------------------
  // Determinant laws
  // ---------------------------------------------------------------------

  lemma DetIdentity()
    ensures Det2(Identity(2)) == 1.0
    ensures Det3(Identity(3)) == 1.0
    ensures Det4(Identity(4)) == 1.0
  {
    Det3Expanded(Identity(3));
    var i4 := Identity(4);
    assert SubMat(i4, 0, 0) == Identity(3) by {
      EqualByEntries(SubMat(i4, 0, 0), Identity(3));
    }
  }

  lemma Det2Transpose(m: Mat)
    requires IsMat(m, 2)
    ensures Det2(Transpose(m)) == Det2(m)
  {
  }

  lemma Det3Transpose(m: Mat)
    requires IsMat(m, 3)
    ensures Det3(Transpose(m)) == Det3(m)
  {
    Det3Expanded(m);
    Det3Expanded(Transpose(m));
  }

  /** The product rule for 2-by-2 determinants, as a polynomial identity in the entries. */
  lemma Det2MulExpanded(a: Mat, b: Mat)
    requires IsMat(a, 2) && IsMat(b, 2)
    ensures Det2Of(a[0][0] * b[0][0] + a[1][0] * b[0][1], a[0][1] * b[0][0] + a[1][1] * b[0][1],
                   a[0][0] * b[1][0] + a[1][0] * b[1][1], a[0][1] * b[1][0] + a[1][1] * b[1][1])
      == Det2Of(a[0][0], a[0][1], a[1][0], a[1][1]) * Det2Of(b[0][0], b[0][1], b[1][0], b[1][1])
  {
  }

  /** The product rule for 3-by-3 determinants, as a polynomial identity in the entries. */
  lemma Det3MulExpanded(a: Mat, b: Mat)
    requires IsMat(a, 3) && IsMat(b, 3)
    ensures Det3Of(a[0][0] * b[0][0] + a[1][0] * b[0][1] + a[2][0] * b[0][2],
                   a[0][1] * b[0][0] + a[1][1] * b[0][1] + a[2][1] * b[0][2],
                   a[0][2] * b[0][0] + a[1][2] * b[0][1] + a[2][2] * b[0][2],
                   a[0][0] * b[1][0] + a[1][0] * b[1][1] + a[2][0] * b[1][2],
                   a[0][1] * b[1][0] + a[1][1] * b[1][1] + a[2][1] * b[1][2],
                   a[0][2] * b[1][0] + a[1][2] * b[1][1] + a[2][2] * b[1][2],
                   a[0][0] * b[2][0] + a[1][0] * b[2][1] + a[2][0] * b[2][2],
                   a[0][1] * b[2][0] + a[1][1] * b[2][1] + a[2][1] * b[2][2],
                   a[0][2] * b[2][0] + a[1][2] * b[2][1] + a[2][2] * b[2][2])
      == Det3Of(a[0][0], a[0][1], a[0][2], a[1][0], a[1][1], a[1][2], a[2][0], a[2][1], a[2][2])
       * Det3Of(b[0][0], b[0][1], b[0][2], b[1][0], b[1][1], b[1][2], b[2][0], b[2][1], b[2][2])
  {
  }

  /** The determinant of a product is the product of the determinants. */
  lemma Det2Mul(m1: Mat, m2: Mat)
    requires IsMat(m1, 2) && IsMat(m2, 2)
    ensures Det2(Mul(m1, m2)) == Det2(m1) * Det2(m2)
  {
    Mul2Entries(m1, m2);
    Det2Expanded(Mul(m1, m2));
    Det2Expanded(m1);
    Det2Expanded(m2);
    Det2MulExpanded(m1, m2);
  }

  /** The determinant of a product, with the product's entries written out. */
  lemma Det3OfProduct(a: Mat, b: Mat)
    requires IsMat(a, 3) && IsMat(b, 3)
    ensures Det3Of(Mul(a, b)[0][0], Mul(a, b)[0][1], Mul(a, b)[0][2], Mul(a, b)[1][0], Mul(a, b)[1][1], Mul(a, b)[1][2], Mul(a, b)[2][0], Mul(a, b)[2][1], Mul(a, b)[2][2])
        == Det3Of(a[0][0] * b[0][0] + a[1][0] * b[0][1] + a[2][0] * b[0][2],
                  a[0][1] * b[0][0] + a[1][1] * b[0][1] + a[2][1] * b[0][2],
                  a[0][2] * b[0][0] + a[1][2] * b[0][1] + a[2][2] * b[0][2],
                  a[0][0] * b[1][0] + a[1][0] * b[1][1] + a[2][0] * b[1][2],
                  a[0][1] * b[1][0] + a[1][1] * b[1][1] + a[2][1] * b[1][2],
                  a[0][2] * b[1][0] + a[1][2] * b[1][1] + a[2][2] * b[1][2],
                  a[0][0] * b[2][0] + a[1][0] * b[2][1] + a[2][0] * b[2][2],
                  a[0][1] * b[2][0] + a[1][1] * b[2][1] + a[2][1] * b[2][2],
                  a[0][2] * b[2][0] + a[1][2] * b[2][1] + a[2][2] * b[2][2])
  {
    var p := Mul(a, b);
    Mul3Entries(a, b);
    assert p[0][0] == a[0][0] * b[0][0] + a[1][0] * b[0][1] + a[2][0] * b[0][2];
    assert p[0][1] == a[0][1] * b[0][0] + a[1][1] * b[0][1] + a[2][1] * b[0][2];
    assert p[0][2] == a[0][2] * b[0][0] + a[1][2] * b[0][1] + a[2][2] * b[0][2];
    assert p[1][0] == a[0][0] * b[1][0] + a[1][0] * b[1][1] + a[2][0] * b[1][2];
    assert p[1][1] == a[0][1] * b[1][0] + a[1][1] * b[1][1] + a[2][1] * b[1][2];
    assert p[1][2] == a[0][2] * b[1][0] + a[1][2] * b[1][1] + a[2][2] * b[1][2];
    assert p[2][0] == a[0][0] * b[2][0] + a[1][0] * b[2][1] + a[2][0] * b[2][2];
    assert p[2][1] == a[0][1] * b[2][0] + a[1][1] * b[2][1] + a[2][1] * b[2][2];
    assert p[2][2] == a[0][2] * b[2][0] + a[1][2] * b[2][1] + a[2][2] * b[2][2];
  }

  /** The determinant of a product is the product of the determinants. */
  lemma Det3Mul(m1: Mat, m2: Mat)
    requires IsMat(m1, 3) && IsMat(m2, 3)
    ensures Det3(Mul(m1, m2)) == Det3(m1) * Det3(m2)
  {
    var p, a, b := Mul(m1, m2), m1, m2;
    Det3Expanded(p);
    Det3Expanded(a);
    Det3Expanded(b);
    Det3MulExpanded(a, b);
    Det3OfProduct(a, b);
  }

  /** An outer product has determinant zero. */
  lemma Det2Outer(v1: Vectors.Vec, v2: Vectors.Vec)
    requires |v1| == |v2| == 2
    ensures Det2(Outer(v1, v2)) == 0.0
  {
    var m := Outer(v1, v2);
    assert m[0] == Vectors.Scale(v1, v2[0]) && m[1] == Vectors.Scale(v1, v2[1]);
    Vectors.Cross2Scale(v1, v1, v2[0], v2[1]);
  }

  /** An outer product has determinant zero: its columns are multiples of one vector. */
  lemma Det3Outer(v1: Vectors.Vec, v2: Vectors.Vec)
    requires |v1| == |v2| == 3
    ensures Det3(Outer(v1, v2)) == 0.0
  {
    var m := Outer(v1, v2);
    var a, b, w := v2[0], v2[1], v2[2];
    assert m[0] == Vectors.Scale(v1, a) && m[1] == Vectors.Scale(v1, b) && m[2] == Vectors.Scale(v1, w);
    var c := Vectors.Cross(v1, v1);
    Vectors.CrossScale(v1, v1, a, b);
    Vectors.DotScaleLeft(c, m[2], a * b);
    Vectors.CrossOrthogonal(v1, v1);
    Vectors.DotScaleRight(c, v1, w);
  }

  /** Scaling a 2-by-2 matrix by `f` scales its determinant by `f * f`. */
  lemma Det2Scale(m: Mat, f: real)
    requires IsMat(m, 2)
    ensures Det2(Matrices.Scale(m, f)) == f * f * Det2(m)
  {
    Vectors.Cross2Scale(m[0], m[1], f, f);
  }

  /** Scaling a 3-by-3 matrix by `f` scales its determinant by `f * f * f`. */
  lemma Det3Scale(m: Mat, f: real)
    requires IsMat(m, 3)
    ensures Det3(Matrices.Scale(m, f)) == f * f * f * Det3(m)
  {
    var s := Matrices.Scale(m, f);
    var m0, m1, m2, s2 := m[0], m[1], m[2], s[2];
    var c := Vectors.Cross(m0, m1);
    var ff := f * f;
    Vectors.CrossScale(m0, m1, f, f);
    Vectors.DotScaleLeft(c, s2, ff);
    Vectors.DotScaleRight(c, m2, f);
  }

  // ---------------------------------------------------------------------
  // Inverse laws
  // ---------------------------------------------------------------------

  /** The entries of `d` times the identity. */
  lemma ScaledIdentity(n: nat, d: real)
    ensures forall j, i :: 0 <= j < n && 0 <= i < n ==>
      Matrices.Scale(Identity(n), d)[j][i] == if i == j then d else 0.0
  {
  }

  /** A 2-by-2 matrix with `d` on the diagonal and zeros elsewhere is `d` times the identity. */
  lemma ScaledIdentity2(p: Mat, d: real)
    requires IsMat(p, 2)
    requires p[0][0] == d && p[0][1] == 0.0 && p[1][0] == 0.0 && p[1][1] == d
    ensures p == Matrices.Scale(Identity(2), d)
  {
    ScaledIdentity(2, d);
    Equal2(p, Matrices.Scale(Identity(2), d));
  }

  /** A 3-by-3 matrix with `d` on the diagonal and zeros elsewhere is `d` times the identity. */
  lemma ScaledIdentity3(p: Mat, d: real)
    requires IsMat(p, 3)
    requires p[0][0] == d && p[0][1] == 0.0 && p[0][2] == 0.0
    requires p[1][0] == 0.0 && p[1][1] == d && p[1][2] == 0.0
    requires p[2][0] == 0.0 && p[2][1] == 0.0 && p[2][2] == d
    ensures p == Matrices.Scale(Identity(3), d)
  {
    ScaledIdentity(3, d);
    Equal3(p, Matrices.Scale(Identity(3), d));
  }

  /** Scaling by `d` and then by `1 / d` gives back the matrix. */
  lemma ScaleByReciprocal(m: Mat, d: real)
    requires IsSquare(m) && d != 0.0
    ensures Matrices.Scale(Matrices.Scale(m, d), 1.0 / d) == m
  {
    var r := Matrices.Scale(Matrices.Scale(m, d), 1.0 / d);
    forall j, i | 0 <= j < |m| && 0 <= i < |m|
      ensures r[j][i] == m[j][i]
    {
      assert r[j][i] == m[j][i] * d * (1.0 / d);
    }
    EqualByEntries(r, m);
  }

  /** A matrix whose products with `m` are `d` times the identity, scaled by `1 / d`, is the inverse of `m`. */
  lemma ScaledAdjugateIsInverse(m: Mat, a: Mat, d: real)
    requires IsSquare(m) && IsSquare(a) && |m| == |a| && d != 0.0
    requires Mul(m, a) == Matrices.Scale(Identity(|m|), d)
    requires Mul(a, m) == Matrices.Scale(Identity(|m|), d)
    ensures Mul(m, Matrices.Scale(a, 1.0 / d)) == Identity(|m|)
    ensures Mul(Matrices.Scale(a, 1.0 / d), m) == Identity(|m|)
  {
    MulScalarFactorization(m, a, 1.0 / d);
    MulScalarFactorization(a, m, 1.0 / d);
    ScaleByReciprocal(Identity(|m|), d);
  }

  lemma Adjugate2Right(m: Mat)
    requires IsMat(m, 2)
    ensures Mul(m, Adjugate2(m)) == Matrices.Scale(Identity(2), Det2(m))
  {
    var a, d := Adjugate2(m), Det2(m);
    assert d == m[0][0] * m[1][1] - m[0][1] * m[1][0];
    var p := Mul(m, a);
    assert p[0][0] == d && p[0][1] == 0.0 && p[1][0] == 0.0 && p[1][1] == d by {
      Mul2Entries(m, a);
    }
    ScaledIdentity2(p, d);
  }

  lemma Adjugate2Left(m: Mat)
    requires IsMat(m, 2)
    ensures Mul(Adjugate2(m), m) == Matrices.Scale(Identity(2), Det2(m))
  {
    var a, d := Adjugate2(m), Det2(m);
    assert d == m[0][0] * m[1][1] - m[0][1] * m[1][0];
    var q := Mul(a, m);
    assert q[0][0] == d && q[0][1] == 0.0 && q[1][0] == 0.0 && q[1][1] == d by {
      Mul2Entries(a, m);
    }
    ScaledIdentity2(q, d);
  }

  /** `m` times its adjugate, in either order, is `det m` times the identity. */
  lemma Adjugate2Product(m: Mat)
    requires IsMat(m, 2)
    ensures Mul(m, Adjugate2(m)) == Matrices.Scale(Identity(2), Det2(m))
    ensures Mul(Adjugate2(m), m) == Matrices.Scale(Identity(2), Det2(m))
  {
    Adjugate2Right(m);
    Adjugate2Left(m);
  }

  /** Row `i` of the 3-by-3 adjugate is the cross product of the other two columns, in cyclic order. */
  lemma Adjugate3Rows(m: Mat)
    requires IsMat(m, 3)
    ensures Row(Adjugate3(m), 0) == Vectors.Cross(m[1], m[2])
    ensures Row(Adjugate3(m), 1) == Vectors.Cross(m[2], m[0])
    ensures Row(Adjugate3(m), 2) == Vectors.Cross(m[0], m[1])
  {
    var t := [Vectors.Cross(m[1], m[2]), Vectors.Cross(m[2], m[0]), Vectors.Cross(m[0], m[1])];
    RowOfTranspose(t, 0);
    RowOfTranspose(t, 1);
    RowOfTranspose(t, 2);
  }

  /** The adjugate times `m` is `det m` times the identity: rows of the adjugate are orthogonal to two columns each. */
  lemma Adjugate3LeftProduct(m: Mat)
    requires IsMat(m, 3)
    ensures Mul(Adjugate3(m), m) == Matrices.Scale(Identity(3), Det3(m))
  {
    var a := Adjugate3(m);
    var m0, m1, m2 := m[0], m[1], m[2];
    Adjugate3Rows(m);
    MulEntry(a, m);
    Vectors.CrossOrthogonal(m1, m2);
    Vectors.CrossOrthogonal(m2, m0);
    Vectors.CrossOrthogonal(m0, m1);
    Vectors.TripleProductCyclic(m0, m1, m2);
    Vectors.TripleProductCyclic(m1, m2, m0);
    var p, d := Mul(a, m), Det3(m);
    assert p[0][0] == d && p[0][1] == 0.0 && p[0][2] == 0.0;
    assert p[1][0] == 0.0 && p[1][1] == d && p[1][2] == 0.0;
    assert p[2][0] == 0.0 && p[2][1] == 0.0 && p[2][2] == d;
    ScaledIdentity3(p, d);
  }

  /** The adjugate of the transpose is the transpose of the adjugate. */
  lemma Adjugate3Transpose(m: Mat)
    requires IsMat(m, 3)
    ensures Adjugate3(Transpose(m)) == Transpose(Adjugate3(m))
  {
    var t, c := Transpose(m), Adjugate3(m);
    var a, b := Adjugate3(t), Transpose(c);
    assert t[0][0] == m[0][0] && t[0][1] == m[1][0] && t[0][2] == m[2][0];
    assert t[1][0] == m[0][1] && t[1][1] == m[1][1] && t[1][2] == m[2][1];
    assert t[2][0] == m[0][2] && t[2][1] == m[1][2] && t[2][2] == m[2][2];
    assert b[0][0] == c[0][0] && b[0][1] == c[1][0] && b[0][2] == c[2][0];
    assert b[1][0] == c[0][1] && b[1][1] == c[1][1] && b[1][2] == c[2][1];
    assert b[2][0] == c[0][2] && b[2][1] == c[1][2] && b[2][2] == c[2][2];
    Equal3(a, b);
  }

  /** `d` times the identity is symmetric. */
  lemma ScaledIdentityTranspose(n: nat, d: real)
    ensures Transpose(Matrices.Scale(Identity(n), d)) == Matrices.Scale(Identity(n), d)
  {
    ScaledIdentity(n, d);
    EqualByEntries(Transpose(Matrices.Scale(Identity(n), d)), Matrices.Scale(Identity(n), d));
  }

  /** `m` times its adjugate, in either order, is `det m` times the identity. */
  lemma Adjugate3Product(m: Mat)
    requires IsMat(m, 3)
    ensures Mul(m, Adjugate3(m)) == Matrices.Scale(Identity(3), Det3(m))
    ensures Mul(Adjugate3(m), m) == Matrices.Scale(Identity(3), Det3(m))
  {
    var t := Transpose(m);
    var a := Adjugate3(m);
    var p := Mul(m, a);
    Adjugate3LeftProduct(m);
    Adjugate3LeftProduct(t);
    Adjugate3Transpose(m);
    TransposeMul(m, a);
    Det3Transpose(m);
    TransposeInvolution(p);
    ScaledIdentityTranspose(3, Det3(m));
  }

  /** `inverse` of a 2-by-2 matrix with nonzero determinant is a two-sided inverse. */
  lemma Inverse2IsInverse(m: Mat)
    requires IsMat(m, 2) && Det2(m) != 0.0
    ensures Mul(m, Inverse2(m)) == Identity(2)
    ensures Mul(Inverse2(m), m) == Identity(2)
  {
    Adjugate2Product(m);
    ScaledAdjugateIsInverse(m, Adjugate2(m), Det2(m));
  }

  /** `inverse` of a 3-by-3 matrix with nonzero determinant is a two-sided inverse. */
  lemma Inverse3IsInverse(m: Mat)
    requires IsMat(m, 3) && Det3(m) != 0.0
    ensures Mul(m, Inverse3(m)) == Identity(3)
    ensures Mul(Inverse3(m), m) == Identity(3)
  {
    Adjugate3Product(m);
    assert Inverse3(m) == Matrices.Scale(Adjugate3(m), 1.0 / Det3(m));
    ScaledAdjugateIsInverse(m, Adjugate3(m), Det3(m));
  }

  /** The determinant of the inverse is the reciprocal of the determinant. */
  lemma Det2Inverse(m: Mat)
    requires IsMat(m, 2) && Det2(m) != 0.0
    ensures Det2(Inverse2(m)) * Det2(m) == 1.0
  {
    var i := Inverse2(m);
    assert Mul(i, m) == Identity(2) by {
      Inverse2IsInverse(m);
    }
    assert Det2(Mul(i, m)) == Det2(i) * Det2(m) by {
      Det2Mul(i, m);
    }
    assert Det2(Identity(2)) == 1.0 by {
      DetIdentity();
    }
  }

  /** The determinant of the inverse is the reciprocal of the determinant. */
  lemma Det3Inverse(m: Mat)
    requires IsMat(m, 3) && Det3(m) != 0.0
    ensures Det3(Inverse3(m)) * Det3(m) == 1.0
  {
    var i := Inverse3(m);
    assert Mul(i, m) == Identity(3) by {
      Inverse3IsInverse(m);
    }
    assert Det3(Mul(i, m)) == Det3(i) * Det3(m) by {
      Det3Mul(i, m);
    }
    assert Det3(Identity(3)) == 1.0 by {
      DetIdentity();
    }
  }

  // ---------------------------------------------------------------------
  // cast
  // ---------------------------------------------------------------------

  /** Casting a 2-by-2 matrix into the 3-by-3 identity keeps the determinant. */
  lemma Det3Cast(m: Mat)
    requires IsMat(m, 2)
    ensures Det3(Cast(m, 3)) == Det2(m)
  {
    var c := Cast(m, 3);
    Det3Expanded(c);
    assert c[0][2] == 0.0 && c[1][2] == 0.0 && c[2][0] == 0.0 && c[2][1] == 0.0 && c[2][2] == 1.0;
  }

  /** Casting a 3-by-3 matrix into the 4-by-4 identity keeps the determinant. */
  lemma Det4Cast(m: Mat)
    requires IsMat(m, 3)
    ensures Det4(Cast(m, 4)) == Det3(m)
  {
    var c := Cast(m, 4);
    assert c[0][3] == 0.0 && c[1][3] == 0.0 && c[2][3] == 0.0;
    assert c[3][0] == 0.0 && c[3][1] == 0.0 && c[3][2] == 0.0 && c[3][3] == 1.0;
    Det3Expanded(m);
    Det3Expanded(SubMat(c, 0, 0));
    Det3Expanded(SubMat(c, 0, 1));
    Det3Expanded(SubMat(c, 0, 2));
  }
}
