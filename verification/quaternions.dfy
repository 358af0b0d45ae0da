/**
 * `QuatMath` of `quaternion.ts`: quaternions as 4-tuples `[x, y, z, w]`
 * with the vector part first and the scalar part last. `add`, `sub`,
 * `scale` and `neg` delegate to the 4-D vector operations and are those
 * of the vector model.
 */
module Quaternions {
  import Vectors

  type Quat = Vectors.Vec

  predicate IsQuat(q: Quat) {
    |q| == 4
  }

  /** The quaternion built from a vector part and a scalar part. */
  function Compose(v: Vectors.Vec, w: real): (r: Quat)
    requires |v| == 3
    ensures IsQuat(r) && r[..3] == v && r[3] == w
  {
    v + [w]
  }

  /** The vector part `[x, y, z]`. */
  function VectorPart(q: Quat): (r: Vectors.Vec)
    requires IsQuat(q)
    ensures |r| == 3 && Compose(r, q[3]) == q
  {
    q[..3]
  }

  /** The unit quaternion `(0, 0, 0, 1)`. */
  const One: Quat := [0.0, 0.0, 0.0, 1.0]

  /** `mul`: the Hamilton product, written out per component. */
  function Mul(q1: Quat, q2: Quat): (r: Quat)
    requires IsQuat(q1) && IsQuat(q2)
    ensures IsQuat(r)
  {
    var x1, y1, z1, w1 := q1[0], q1[1], q1[2], q1[3];
    var x2, y2, z2, w2 := q2[0], q2[1], q2[2], q2[3];
    [ y1 * z2 - y2 * z1 + x1 * w2 + x2 * w1,
      z1 * x2 - z2 * x1 + y1 * w2 + y2 * w1,
      x1 * y2 - x2 * y1 + z1 * w2 + z2 * w1,
      w1 * w2 - x1 * x2 - y1 * y2 - z1 * z2 ]
  }

  /** `conj`: the vector part negated, the scalar part kept. */
  function Conj(q: Quat): (r: Quat)
    requires IsQuat(q)
    ensures IsQuat(r)
    ensures r[0] == -q[0] && r[1] == -q[1] && r[2] == -q[2] && r[3] == q[3]
  {
    [-q[0], -q[1], -q[2], q[3]]
  }

  /** `lengthSquared`: the 4-D `lengthSquared` of the tuple. */
  function LengthSquared(q: Quat): real
    requires IsQuat(q)
  {
    Vectors.LengthSquared(q)
  }

  /** `inverse`: the conjugate scaled by `1 / lengthSquared(q)`. */
  function Inverse(q: Quat): (r: Quat)
    requires IsQuat(q) && LengthSquared(q) != 0.0
    ensures IsQuat(r)
  {
    Vectors.Scale(Conj(q), 1.0 / LengthSquared(q))
  }

  // ---------------------------------------------------------------------
  // The product in vector form
  // ---------------------------------------------------------------------

  /**
   * The Hamilton product in its vector form: the scalar part is
   * `w1 w2 - v1 . v2` and the vector part `v1 x v2 + w1 v2 + w2 v1`.
   */
  lemma MulVectorForm(q1: Quat, q2: Quat)
    requires IsQuat(q1) && IsQuat(q2)
    ensures Mul(q1, q2) == Compose(
      Vectors.Add(Vectors.Add(Vectors.Cross(VectorPart(q1), VectorPart(q2)), Vectors.Scale(VectorPart(q2), q1[3])), Vectors.Scale(VectorPart(q1), q2[3])),
      q1[3] * q2[3] - Vectors.Dot(VectorPart(q1), VectorPart(q2)))
  {
    var v1, v2 := VectorPart(q1), VectorPart(q2);
    Vectors.Dot3(v1, v2);
    var c := Vectors.Cross(v1, v2);
    var s := Vectors.Add(Vectors.Add(c, Vectors.Scale(v2, q1[3])), Vectors.Scale(v1, q2[3]));
    var r := Compose(s, q1[3] * q2[3] - Vectors.Dot(v1, v2));
    assert Mul(q1, q2)[0] == r[0];
    assert Mul(q1, q2)[1] == r[1];
    assert Mul(q1, q2)[2] == r[2];
    assert Mul(q1, q2)[3] == r[3];
  }

  /** The squared length, written out. */
  lemma LengthSquaredExpanded(q: Quat)
    requires IsQuat(q)
    ensures LengthSquared(q) == q[0] * q[0] + q[1] * q[1] + q[2] * q[2] + q[3] * q[3]
  {
    Vectors.Dot4(q, q);
  }

  // ---------------------------------------------------------------------
  // Laws
  // ---------------------------------------------------------------------

  /** `(0, 0, 0, 1)` is the unit of the product on both sides. */
  lemma MulOne(q: Quat)
    requires IsQuat(q)
    ensures Mul(q, One) == q
    ensures Mul(One, q) == q
  {
    assert Mul(q, One)[0] == q[0] && Mul(q, One)[1] == q[1] && Mul(q, One)[2] == q[2] && Mul(q, One)[3] == q[3];
    assert Mul(One, q)[0] == q[0] && Mul(One, q)[1] == q[1] && Mul(One, q)[2] == q[2] && Mul(One, q)[3] == q[3];
  }

  lemma ConjInvolution(q: Quat)
    requires IsQuat(q)
    ensures Conj(Conj(q)) == q
  {
  }

  /** `q + conj q` keeps only twice the scalar part; `q - conj q` only twice the vector part. */
  lemma AddSubConj(q: Quat)
    requires IsQuat(q)
    ensures Vectors.Add(q, Conj(q)) == [0.0, 0.0, 0.0, 2.0 * q[3]]
    ensures Vectors.Sub(q, Conj(q)) == [2.0 * q[0], 2.0 * q[1], 2.0 * q[2], 0.0]
  {
    var a := Vectors.Add(q, Conj(q));
    var s := Vectors.Sub(q, Conj(q));
    assert a[0] == 0.0 && a[1] == 0.0 && a[2] == 0.0 && a[3] == 2.0 * q[3];
    assert s[0] == 2.0 * q[0] && s[1] == 2.0 * q[1] && s[2] == 2.0 * q[2] && s[3] == 0.0;
  }

  /** A quaternion times its conjugate, in either order, is its squared length as a scalar. */
  lemma MulConj(q: Quat)
    requires IsQuat(q)
    ensures Mul(q, Conj(q)) == [0.0, 0.0, 0.0, LengthSquared(q)]
    ensures Mul(Conj(q), q) == [0.0, 0.0, 0.0, LengthSquared(q)]
  {
    LengthSquaredExpanded(q);
    var c := Conj(q);
    assert Mul(q, c)[0] == 0.0 && Mul(q, c)[1] == 0.0 && Mul(q, c)[2] == 0.0 && Mul(q, c)[3] == LengthSquared(q);
    assert Mul(c, q)[0] == 0.0 && Mul(c, q)[1] == 0.0 && Mul(c, q)[2] == 0.0 && Mul(c, q)[3] == LengthSquared(q);
  }

  /** The conjugate of a product is the product of the conjugates in reverse order. */
  lemma ConjMul(q1: Quat, q2: Quat)
    requires IsQuat(q1) && IsQuat(q2)
    ensures Conj(Mul(q1, q2)) == Mul(Conj(q2), Conj(q1))
  {
    var a := Conj(Mul(q1, q2));
    var b := Mul(Conj(q2), Conj(q1));
    assert a[0] == b[0] && a[1] == b[1] && a[2] == b[2] && a[3] == b[3];
  }

  /** Row `k` of the matrix of left multiplication by `p`: `Mul(p, q)[k]` is its dot product with `q`. */
  function LeftRow(p: Quat, k: nat): (r: Quat)
    requires IsQuat(p) && k < 4
    ensures IsQuat(r)
  {
    var x, y, z, w := p[0], p[1], p[2], p[3];
    if k == 0 then [w, -z, y, x]
    else if k == 1 then [z, w, -x, y]
    else if k == 2 then [-y, x, w, z]
    else [-x, -y, -z, w]
  }

  /** Row `k` of the matrix of right multiplication by `q`: `Mul(p, q)[k]` is its dot product with `p`. */
  function RightRow(q: Quat, k: nat): (r: Quat)
    requires IsQuat(q) && k < 4
    ensures IsQuat(r)
  {
    var x, y, z, w := q[0], q[1], q[2], q[3];
    if k == 0 then [w, z, -y, x]
    else if k == 1 then [-z, w, x, y]
    else if k == 2 then [y, -x, w, z]
    else [-x, -y, -z, w]
  }

  lemma MulIsDotLeft(p: Quat, q: Quat, k: nat)
    requires IsQuat(p) && IsQuat(q) && k < 4
    ensures Mul(p, q)[k] == Vectors.Dot(LeftRow(p, k), q)
  {
    Vectors.Dot4(LeftRow(p, k), q);
  }

  lemma MulIsDotRight(p: Quat, q: Quat, k: nat)
    requires IsQuat(p) && IsQuat(q) && k < 4
    ensures Mul(p, q)[k] == Vectors.Dot(RightRow(q, k), p)
  {
    Vectors.Dot4(RightRow(q, k), p);
  }

  /** The product is linear in its second factor. */
  lemma MulScaleRight(q1: Quat, q2: Quat, s: real)
    requires IsQuat(q1) && IsQuat(q2)
    ensures Mul(q1, Vectors.Scale(q2, s)) == Vectors.Scale(Mul(q1, q2), s)
  {
    var c := Vectors.Scale(q2, s);
    var a := Mul(q1, c);
    var b := Vectors.Scale(Mul(q1, q2), s);
    forall k | 0 <= k < 4
      ensures a[k] == b[k]
    {
      MulIsDotLeft(q1, c, k);
      MulIsDotLeft(q1, q2, k);
      Vectors.DotScaleRight(LeftRow(q1, k), q2, s);
    }
  }

  /** The product is linear in its first factor. */
  lemma MulScaleLeft(q1: Quat, q2: Quat, s: real)
    requires IsQuat(q1) && IsQuat(q2)
    ensures Mul(Vectors.Scale(q1, s), q2) == Vectors.Scale(Mul(q1, q2), s)
  {
    var c := Vectors.Scale(q1, s);
    var a := Mul(c, q2);
    var b := Vectors.Scale(Mul(q1, q2), s);
    forall k | 0 <= k < 4
      ensures a[k] == b[k]
    {
      MulIsDotRight(c, q2, k);
      MulIsDotRight(q1, q2, k);
      Vectors.DotScaleRight(RightRow(q2, k), q1, s);
    }
  }

  /** A nonzero quaternion times its `inverse`, in either order, is `(0, 0, 0, 1)`. */
  lemma MulInverse(q: Quat)
    requires IsQuat(q) && LengthSquared(q) != 0.0
    ensures Mul(q, Inverse(q)) == One
    ensures Mul(Inverse(q), q) == One
  {
    var c := Conj(q);
    var l := LengthSquared(q);
    var s := 1.0 / l;
    MulConj(q);
    MulScaleRight(q, c, s);
    MulScaleLeft(c, q, s);
    var p := Vectors.Scale([0.0, 0.0, 0.0, l], s);
    assert p[0] == 0.0 && p[1] == 0.0 && p[2] == 0.0 && p[3] == 1.0;
    assert p == One;
  }
}
