/**
 * The immutable vector math of `vector.ts` / `vector.js`: 2-, 3- and
 * 4-component tuples of numbers, modelled as sequences of reals. Every
 * operation is written once for any dimension; the source repeats it per
 * dimension with the components unrolled.
 */
module Vectors {
  import opened Wrappers

  type Vec = seq<real>

  /** The dimensions the library supports. */
  predicate IsDim(n: int) {
    2 <= n <= 4
  }

  /** Every vector of `vs` has `n` components. */
  predicate AllDim(vs: seq<Vec>, n: nat) {
    forall k :: 0 <= k < |vs| ==> |vs[k]| == n
  }

  function Zero(n: nat): (r: Vec)
    ensures |r| == n
    ensures forall i :: 0 <= i < n ==> r[i] == 0.0
  {
    seq(n, i => 0.0)
  }

  /** The unit vector along axis `j`: the `j`-th column of the identity. */
  function Basis(n: nat, j: nat): (r: Vec)
    requires j < n
    ensures |r| == n && r[j] == 1.0
    ensures forall i :: 0 <= i < n && i != j ==> r[i] == 0.0
  {
    seq(n, i => if i == j then 1.0 else 0.0)
  }

  // ---------------------------------------------------------------------
  // Componentwise operations
  // ---------------------------------------------------------------------

  function Add(v1: Vec, v2: Vec): (r: Vec)
    requires |v1| == |v2|
    ensures |r| == |v1|
    ensures forall i :: 0 <= i < |r| ==> r[i] == v1[i] + v2[i]
  {
    seq(|v1|, i requires 0 <= i < |v1| => v1[i] + v2[i])
  }

  function Sub(v1: Vec, v2: Vec): (r: Vec)
    requires |v1| == |v2|
    ensures |r| == |v1|
    ensures forall i :: 0 <= i < |r| ==> r[i] == v1[i] - v2[i]
  {
    seq(|v1|, i requires 0 <= i < |v1| => v1[i] - v2[i])
  }

  function Mul(v1: Vec, v2: Vec): (r: Vec)
    requires |v1| == |v2|
    ensures |r| == |v1|
    ensures forall i :: 0 <= i < |r| ==> r[i] == v1[i] * v2[i]
  {
    seq(|v1|, i requires 0 <= i < |v1| => v1[i] * v2[i])
  }

  /** `div`: componentwise quotient, for divisors without a zero component. */
  function Div(v1: Vec, v2: Vec): (r: Vec)
    requires |v1| == |v2|
    requires forall i :: 0 <= i < |v2| ==> v2[i] != 0.0
    ensures |r| == |v1|
    ensures forall i :: 0 <= i < |r| ==> r[i] * v2[i] == v1[i]
  {
    seq(|v1|, i requires 0 <= i < |v1| => v1[i] / v2[i])
  }

  function Scale(v: Vec, f: real): (r: Vec)
    ensures |r| == |v|
    ensures forall i :: 0 <= i < |r| ==> r[i] == v[i] * f
  {
    seq(|v|, i requires 0 <= i < |v| => v[i] * f)
  }

  function Neg(v: Vec): (r: Vec)
    ensures |r| == |v|
    ensures forall i :: 0 <= i < |r| ==> r[i] == -v[i]
  {
    seq(|v|, i requires 0 <= i < |v| => -v[i])
  }

  function MaxReal(a: real, b: real): (r: real)
    ensures r >= a && r >= b && (r == a || r == b)
  {
    if a >= b then a else b
  }

  function MinReal(a: real, b: real): (r: real)
    ensures r <= a && r <= b && (r == a || r == b)
  {
    if a <= b then a else b
  }

  /** `Math.max` per component: the result dominates both arguments and is one of them per component. */
  function Max(v1: Vec, v2: Vec): (r: Vec)
    requires |v1| == |v2|
    ensures |r| == |v1|
    ensures forall i :: 0 <= i < |r| ==> r[i] >= v1[i] && r[i] >= v2[i]
    ensures forall i :: 0 <= i < |r| ==> r[i] == v1[i] || r[i] == v2[i]
  {
    seq(|v1|, i requires 0 <= i < |v1| => MaxReal(v1[i], v2[i]))
  }

  /** `Math.min` per component: the result is below both arguments and is one of them per component. */
  function Min(v1: Vec, v2: Vec): (r: Vec)
    requires |v1| == |v2|
    ensures |r| == |v1|
    ensures forall i :: 0 <= i < |r| ==> r[i] <= v1[i] && r[i] <= v2[i]
    ensures forall i :: 0 <= i < |r| ==> r[i] == v1[i] || r[i] == v2[i]
  {
    seq(|v1|, i requires 0 <= i < |v1| => MinReal(v1[i], v2[i]))
  }

  // ---------------------------------------------------------------------
  // Products
  // ---------------------------------------------------------------------

  /** Sum of the first `n` products `a[k] * b[k]`. */
  function DotN(a: Vec, b: Vec, n: nat): real
    requires n <= |a| && n <= |b|
  {
    if n == 0 then 0.0 else DotN(a, b, n - 1) + a[n - 1] * b[n - 1]
  }

  function Dot(a: Vec, b: Vec): real
    requires |a| == |b|
  {
    DotN(a, b, |a|)
  }

  function LengthSquared(v: Vec): real {
    Dot(v, v)
  }

  /** The 3-D cross product. */
  function Cross(v1: Vec, v2: Vec): (r: Vec)
    requires |v1| == 3 && |v2| == 3
    ensures |r| == 3
  {
    [ v1[1] * v2[2] - v1[2] * v2[1],
      v1[2] * v2[0] - v1[0] * v2[2],
      v1[0] * v2[1] - v1[1] * v2[0] ]
  }

  /** The 2-D cross product, a scalar. */
  function Cross2(v1: Vec, v2: Vec): real
    requires |v1| == 2 && |v2| == 2
  {
    v1[0] * v2[1] - v1[1] * v2[0]
  }

  /** `prod(v, m)`: the dot product of `v` with every column of `m`. */
  function Prod(v: Vec, m: seq<Vec>): (r: Vec)
    requires AllDim(m, |v|)
    ensures |r| == |m|
    ensures forall i :: 0 <= i < |m| ==> r[i] == Dot(v, m[i])
  {
    seq(|m|, i requires 0 <= i < |m| => Dot(v, m[i]))
  }

  // ---------------------------------------------------------------------
  // Derived operations
  // ---------------------------------------------------------------------

  function Mix(w: real, v1: Vec, v2: Vec): Vec
    requires |v1| == |v2|
  {
    Add(Scale(v1, w), Scale(v2, 1.0 - w))
  }

  function WeightedSum(w1: real, v1: Vec, w2: real, v2: Vec): Vec
    requires |v1| == |v2|
    requires w1 + w2 != 0.0
  {
    Scale(Add(Scale(v1, w1), Scale(v2, w2)), 1.0 / (w1 + w2))
  }

  /** `project(v1, v2)` of the newer build: `v2` scaled by `dot(v1, v2) / lengthSquared(v2)`. */
  function Project(v1: Vec, v2: Vec): Vec
    requires |v1| == |v2|
    requires LengthSquared(v2) != 0.0
  {
    Scale(v2, Dot(v1, v2) / LengthSquared(v2))
  }

  function Reject(v1: Vec, v2: Vec): Vec
    requires |v1| == |v2|
    requires LengthSquared(v2) != 0.0
  {
    Sub(v1, Project(v1, v2))
  }

  /** `from(array, offset)`: the `d` consecutive elements starting at `offset`. */
  function From(a: seq<real>, offset: nat, d: nat): (r: Vec)
    requires offset + d <= |a|
    ensures |r| == d
    ensures forall i :: 0 <= i < d ==> r[i] == a[offset + i]
  {
    a[offset..offset + d]
  }

  /**
   * `swizzle(v, ...components)`: position `i` holds `v[components[i]]`; a
   * component `v` does not have makes the source throw, here `None`.
   */
  function Swizzle(v: Vec, components: seq<int>): (r: Option<Vec>)
    ensures r.Some? <==> forall i :: 0 <= i < |components| ==> 0 <= components[i] < |v|
    ensures r.Some? ==> |r.value| == |components|
    ensures r.Some? ==> forall i :: 0 <= i < |components| ==> r.value[i] == v[components[i]]
  {
    if |components| == 0 then Some([])
    else if !(0 <= components[0] < |v|) then None
    else
      match Swizzle(v, components[1..])
      case None => None
      case Some(rest) => Some([v[components[0]]] + rest)
  }

  // ---------------------------------------------------------------------
  // Folds: the immutable addAll/subAll/maxAll/minAll (a copy of `v` folded
  // with every element of `vs`, in order)
  // ---------------------------------------------------------------------

  function AddAll(v: Vec, vs: seq<Vec>): Vec
    requires AllDim(vs, |v|)
    decreases |vs|
  {
    if |vs| == 0 then v else AddAll(Add(v, vs[0]), vs[1..])
  }

  function SubAll(v: Vec, vs: seq<Vec>): Vec
    requires AllDim(vs, |v|)
    decreases |vs|
  {
    if |vs| == 0 then v else SubAll(Sub(v, vs[0]), vs[1..])
  }

  /** Component `i` summed over every vector of `vs`. */
  function ComponentSum(vs: seq<Vec>, i: nat): real
    requires forall k :: 0 <= k < |vs| ==> i < |vs[k]|
  {
    if |vs| == 0 then 0.0 else vs[0][i] + ComponentSum(vs[1..], i)
  }

  function MaxAll(v: Vec, vs: seq<Vec>): (r: Vec)
    requires AllDim(vs, |v|)
    ensures |r| == |v|
    ensures forall i :: 0 <= i < |r| ==> r[i] >= v[i]
    ensures forall k, i :: 0 <= k < |vs| && 0 <= i < |r| ==> r[i] >= vs[k][i]
    ensures forall i :: 0 <= i < |r| ==> r[i] == v[i] || exists k :: 0 <= k < |vs| && r[i] == vs[k][i]
    decreases |vs|
  {
    if |vs| == 0 then v
    else
      var m := Max(v, vs[0]);
      var r := MaxAll(m, vs[1..]);
      assert forall k :: 1 <= k < |vs| ==> vs[k] == vs[1..][k - 1];
      r
  }

  function MinAll(v: Vec, vs: seq<Vec>): (r: Vec)
    requires AllDim(vs, |v|)
    ensures |r| == |v|
    ensures forall i :: 0 <= i < |r| ==> r[i] <= v[i]
    ensures forall k, i :: 0 <= k < |vs| && 0 <= i < |r| ==> r[i] <= vs[k][i]
    ensures forall i :: 0 <= i < |r| ==> r[i] == v[i] || exists k :: 0 <= k < |vs| && r[i] == vs[k][i]
    decreases |vs|
  {
    if |vs| == 0 then v
    else
      var m := Min(v, vs[0]);
      var r := MinAll(m, vs[1..]);
      assert forall k :: 1 <= k < |vs| ==> vs[k] == vs[1..][k - 1];
      r
  }

  // ---------------------------------------------------------------------
  // deleteComponent
  // ---------------------------------------------------------------------

  /** The tuple without its element at `component`. */
  function DeleteComponent<T>(t: seq<T>, component: nat): (r: seq<T>)
    requires component < |t|
    ensures |r| == |t| - 1
    ensures forall j :: 0 <= j < component ==> r[j] == t[j]
    ensures forall j :: component <= j < |r| ==> r[j] == t[j + 1]
  {
    t[..component] + t[component + 1..]
  }

  /**
   * The two copying loops of `deleteComponent`: indices below `component`
   * are copied to the same position, later ones one position down.
   */
  method DeleteComponentLoop<T>(t: seq<T>, component: nat) returns (r: seq<T>)
    requires component < |t|
    ensures r == DeleteComponent(t, component)
  {
    r := [];
    var i := 0;
    while i < component
      invariant 0 <= i <= component
      invariant r == t[..i]
    {
      r := r + [t[i]];
      i := i + 1;
    }
    i := component + 1;
    while i < |t|
      invariant component + 1 <= i <= |t|
      invariant |r| == i - 1
      invariant forall j :: 0 <= j < component ==> r[j] == t[j]
      invariant forall j :: component <= j < i - 1 ==> r[j] == t[j + 1]
    {
      r := r + [t[i]];
      i := i + 1;
    }
  }

  // ---------------------------------------------------------------------
  // Laws
  // ---------------------------------------------------------------------

  lemma AddCommutative(v1: Vec, v2: Vec)
    requires |v1| == |v2|
    ensures Add(v1, v2) == Add(v2, v1)
  {
  }

  lemma AddAssociative(v1: Vec, v2: Vec, v3: Vec)
    requires |v1| == |v2| == |v3|
    ensures Add(v1, Add(v2, v3)) == Add(Add(v1, v2), v3)
  {
  }

  lemma SubUndoesAdd(v1: Vec, v2: Vec)
    requires |v1| == |v2|
    ensures Sub(Add(v1, v2), v2) == v1
  {
  }

  lemma DivUndoesMul(v1: Vec, v2: Vec)
    requires |v1| == |v2|
    requires forall i :: 0 <= i < |v2| ==> v2[i] != 0.0
    ensures Div(Mul(v1, v2), v2) == v1
  {
    var q := Div(Mul(v1, v2), v2);
    forall i | 0 <= i < |v1|
      ensures q[i] == v1[i]
    {
      assert q[i] * v2[i] == v1[i] * v2[i];
    }
  }

  /** Negation is scaling by `-1`. */
  lemma NegIsScale(v: Vec)
    ensures Neg(v) == Scale(v, -1.0)
  {
    var a := Neg(v);
    var b := Scale(v, -1.0);
    forall i | 0 <= i < |v|
      ensures a[i] == b[i]
    {
      assert v[i] * -1.0 == -v[i];
    }
  }

  lemma ScaleAssociative(v: Vec, s1: real, s2: real)
    ensures Scale(v, s1 * s2) == Scale(Scale(v, s1), s2)
  {
    var a := Scale(v, s1 * s2);
    var b := Scale(Scale(v, s1), s2);
    forall i | 0 <= i < |v|
      ensures a[i] == b[i]
    {
      assert v[i] * (s1 * s2) == (v[i] * s1) * s2;
    }
  }

  lemma ScaleDistributesOverAdd(v1: Vec, v2: Vec, s: real)
    requires |v1| == |v2|
    ensures Scale(Add(v1, v2), s) == Add(Scale(v1, s), Scale(v2, s))
  {
    var a := Scale(Add(v1, v2), s);
    var b := Add(Scale(v1, s), Scale(v2, s));
    forall i | 0 <= i < |v1|
      ensures a[i] == b[i]
    {
      assert (v1[i] + v2[i]) * s == v1[i] * s + v2[i] * s;
    }
  }

  lemma ScaleDistributesOverScalarAdd(v: Vec, s1: real, s2: real)
    ensures Scale(v, s1 + s2) == Add(Scale(v, s1), Scale(v, s2))
  {
  }

  lemma {:induction false} DotNCommutative(a: Vec, b: Vec, n: nat)
    requires n <= |a| && n <= |b|
    ensures DotN(a, b, n) == DotN(b, a, n)
  {
    if n > 0 {
      DotNCommutative(a, b, n - 1);
    }
  }

  lemma DotCommutative(a: Vec, b: Vec)
    requires |a| == |b|
    ensures Dot(a, b) == Dot(b, a)
  {
    DotNCommutative(a, b, |a|);
  }

  lemma {:induction false} DotNAddLeft(a: Vec, b: Vec, c: Vec, n: nat)
    requires |a| == |b| == |c| && n <= |a|
    ensures DotN(Add(a, b), c, n) == DotN(a, c, n) + DotN(b, c, n)
  {
    if n > 0 {
      DotNAddLeft(a, b, c, n - 1);
    }
  }

  /** Dot is additive in its first argument. */
  lemma DotAddLeft(a: Vec, b: Vec, c: Vec)
    requires |a| == |b| == |c|
    ensures Dot(Add(a, b), c) == Dot(a, c) + Dot(b, c)
  {
    DotNAddLeft(a, b, c, |a|);
  }

  /** Dot is additive in its second argument. */
  lemma DotAddRight(a: Vec, b: Vec, c: Vec)
    requires |a| == |b| == |c|
    ensures Dot(a, Add(b, c)) == Dot(a, b) + Dot(a, c)
  {
    DotCommutative(a, Add(b, c));
    DotAddLeft(b, c, a);
    DotCommutative(a, b);
    DotCommutative(a, c);
  }

  lemma {:induction false} DotNScaleLeft(a: Vec, b: Vec, s: real, n: nat)
    requires |a| == |b| && n <= |a|
    ensures DotN(Scale(a, s), b, n) == s * DotN(a, b, n)
  {
    if n > 0 {
      DotNScaleLeft(a, b, s, n - 1);
    }
  }

  lemma DotScaleLeft(a: Vec, b: Vec, s: real)
    requires |a| == |b|
    ensures Dot(Scale(a, s), b) == s * Dot(a, b)
  {
    DotNScaleLeft(a, b, s, |a|);
  }

  lemma DotScaleRight(a: Vec, b: Vec, s: real)
    requires |a| == |b|
    ensures Dot(a, Scale(b, s)) == s * Dot(a, b)
  {
    DotCommutative(a, Scale(b, s));
    DotScaleLeft(b, a, s);
    DotCommutative(a, b);
  }

  lemma {:induction false} DotNSubLeft(a: Vec, b: Vec, c: Vec, n: nat)
    requires |a| == |b| == |c| && n <= |a|
    ensures DotN(Sub(a, b), c, n) == DotN(a, c, n) - DotN(b, c, n)
  {
    if n > 0 {
      DotNSubLeft(a, b, c, n - 1);
    }
  }

  lemma {:induction false} DotNBasis(a: Vec, j: nat, n: nat)
    requires j < |a| && n <= |a|
    ensures DotN(a, Basis(|a|, j), n) == if j < n then a[j] else 0.0
  {
    if n > 0 {
      DotNBasis(a, j, n - 1);
    }
  }

  /** Dotting with the `j`-th unit vector selects component `j`. */
  lemma DotBasis(a: Vec, j: nat)
    requires j < |a|
    ensures Dot(a, Basis(|a|, j)) == a[j]
    ensures Dot(Basis(|a|, j), a) == a[j]
  {
    DotNBasis(a, j, |a|);
    DotCommutative(a, Basis(|a|, j));
  }

  lemma Dot2(a: Vec, b: Vec)
    requires |a| == |b| == 2
    ensures Dot(a, b) == a[0] * b[0] + a[1] * b[1]
  {
    assert DotN(a, b, 1) == a[0] * b[0];
  }

  lemma Dot3(a: Vec, b: Vec)
    requires |a| == |b| == 3
    ensures Dot(a, b) == a[0] * b[0] + a[1] * b[1] + a[2] * b[2]
  {
    assert DotN(a, b, 2) == a[0] * b[0] + a[1] * b[1] by {
      assert DotN(a, b, 1) == a[0] * b[0];
    }
  }

  lemma Dot4(a: Vec, b: Vec)
    requires |a| == |b| == 4
    ensures Dot(a, b) == a[0] * b[0] + a[1] * b[1] + a[2] * b[2] + a[3] * b[3]
  {
    assert DotN(a, b, 3) == a[0] * b[0] + a[1] * b[1] + a[2] * b[2] by {
      assert DotN(a, b, 2) == a[0] * b[0] + a[1] * b[1] by {
        assert DotN(a, b, 1) == a[0] * b[0];
      }
    }
  }

  /** The cross product is orthogonal to both of its factors. */
  lemma CrossOrthogonal(v1: Vec, v2: Vec)
    requires |v1| == 3 && |v2| == 3
    ensures Dot(Cross(v1, v2), v1) == 0.0
    ensures Dot(Cross(v1, v2), v2) == 0.0
  {
    Dot3(Cross(v1, v2), v1);
    Dot3(Cross(v1, v2), v2);
  }

  lemma CrossAntiCommutative(v1: Vec, v2: Vec)
    requires |v1| == 3 && |v2| == 3
    ensures Cross(v1, v2) == Neg(Cross(v2, v1))
  {
  }

  /** The triple product is invariant under cyclic permutation of its factors. */
  lemma TripleProductCyclic(a: Vec, b: Vec, c: Vec)
    requires |a| == 3 && |b| == 3 && |c| == 3
    ensures Dot(Cross(a, b), c) == Dot(Cross(b, c), a)
  {
    Dot3(Cross(a, b), c);
    Dot3(Cross(b, c), a);
    TripleCyclicScalar(a[0], a[1], a[2], b[0], b[1], b[2], c[0], c[1], c[2]);
  }

  lemma TripleCyclicScalar(a0: real, a1: real, a2: real, b0: real, b1: real, b2: real, c0: real, c1: real, c2: real)
    ensures (a1 * b2 - a2 * b1) * c0 + (a2 * b0 - a0 * b2) * c1 + (a0 * b1 - a1 * b0) * c2
         == (b1 * c2 - b2 * c1) * a0 + (b2 * c0 - b0 * c2) * a1 + (b0 * c1 - b1 * c0) * a2
  {
  }

  /** Row `k` of the skew matrix of `v`: component `k` of `Cross(v, w)` is its dot product with `w`. */
  function SkewRow(v: Vec, k: nat): (r: Vec)
    requires |v| == 3 && k < 3
    ensures |r| == 3
  {
    if k == 0 then [0.0, -v[2], v[1]]
    else if k == 1 then [v[2], 0.0, -v[0]]
    else [-v[1], v[0], 0.0]
  }

  lemma CrossIsDot(v1: Vec, v2: Vec, k: nat)
    requires |v1| == 3 && |v2| == 3 && k < 3
    ensures Cross(v1, v2)[k] == Dot(SkewRow(v1, k), v2)
  {
    Dot3(SkewRow(v1, k), v2);
  }

  lemma SkewRowScale(v: Vec, f: real, k: nat)
    requires |v| == 3 && k < 3
    ensures SkewRow(Scale(v, f), k) == Scale(SkewRow(v, k), f)
  {
    var a := SkewRow(Scale(v, f), k);
    var b := Scale(SkewRow(v, k), f);
    assert a[0] == b[0] && a[1] == b[1] && a[2] == b[2];
  }

  /** The cross product is bilinear: scaling the factors scales the product. */
  lemma CrossScale(v1: Vec, v2: Vec, f: real, g: real)
    requires |v1| == 3 && |v2| == 3
    ensures Cross(Scale(v1, f), Scale(v2, g)) == Scale(Cross(v1, v2), f * g)
  {
    var a := Cross(Scale(v1, f), Scale(v2, g));
    var b := Scale(Cross(v1, v2), f * g);
    forall k | 0 <= k < 3
      ensures a[k] == b[k]
    {
      var row := SkewRow(v1, k);
      CrossIsDot(Scale(v1, f), Scale(v2, g), k);
      CrossIsDot(v1, v2, k);
      SkewRowScale(v1, f, k);
      DotScaleRight(Scale(row, f), v2, g);
      DotScaleLeft(row, v2, f);
      assert g * (f * Dot(row, v2)) == Dot(row, v2) * (f * g);
    }
  }

  /** The 2-D cross product is bilinear too. */
  lemma Cross2Scale(v1: Vec, v2: Vec, f: real, g: real)
    requires |v1| == 2 && |v2| == 2
    ensures Cross2(Scale(v1, f), Scale(v2, g)) == f * g * Cross2(v1, v2)
  {
  }

  /** `mix(w, v1, v2)` is `w * v1 + (1 - w) * v2`, `v1` at `w = 1` and `v2` at `w = 0`. */
  lemma MixIsAffineCombination(w: real, v1: Vec, v2: Vec)
    requires |v1| == |v2|
    ensures |Mix(w, v1, v2)| == |v1|
    ensures forall i :: 0 <= i < |v1| ==> Mix(w, v1, v2)[i] == w * v1[i] + (1.0 - w) * v2[i]
    ensures Mix(1.0, v1, v2) == v1
    ensures Mix(0.0, v1, v2) == v2
  {
    assert Mix(1.0, v1, v2) == v1;
    assert Mix(0.0, v1, v2) == v2;
  }

  /** The weighted sum is the mix with the normalised first weight. */
  lemma WeightedSumIsMix(w1: real, v1: Vec, w2: real, v2: Vec)
    requires |v1| == |v2|
    requires w1 + w2 != 0.0
    ensures WeightedSum(w1, v1, w2, v2) == Mix(w1 / (w1 + w2), v1, v2)
  {
    var s := w1 + w2;
    var t := 1.0 / s;
    ScaleDistributesOverAdd(Scale(v1, w1), Scale(v2, w2), t);
    ScaleAssociative(v1, w1, t);
    ScaleAssociative(v2, w2, t);
    assert w1 * t == w1 / s;
    assert w2 * t == 1.0 - w1 / s;
  }

  /** `addAll` adds every element of `vs`, componentwise, to `v`. */
  lemma {:induction false} AddAllSums(v: Vec, vs: seq<Vec>)
    requires AllDim(vs, |v|)
    ensures |AddAll(v, vs)| == |v|
    ensures forall i :: 0 <= i < |v| ==> AddAll(v, vs)[i] == v[i] + ComponentSum(vs, i)
    decreases |vs|
  {
    if |vs| > 0 {
      AddAllSums(Add(v, vs[0]), vs[1..]);
    }
  }

  /** `subAll` subtracts every element of `vs`, componentwise, from `v`. */
  lemma {:induction false} SubAllSubtracts(v: Vec, vs: seq<Vec>)
    requires AllDim(vs, |v|)
    ensures |SubAll(v, vs)| == |v|
    ensures forall i :: 0 <= i < |v| ==> SubAll(v, vs)[i] == v[i] - ComponentSum(vs, i)
    decreases |vs|
  {
    if |vs| > 0 {
      SubAllSubtracts(Sub(v, vs[0]), vs[1..]);
    }
  }

  /** `project` plus `reject` gives back `v1`. */
  lemma ProjectPlusReject(v1: Vec, v2: Vec)
    requires |v1| == |v2|
    requires LengthSquared(v2) != 0.0
    ensures Add(Project(v1, v2), Reject(v1, v2)) == v1
  {
  }

  /** The rejection is orthogonal to `v2`; the projection is parallel to it. */
  lemma RejectOrthogonal(v1: Vec, v2: Vec)
    requires |v1| == |v2|
    requires LengthSquared(v2) != 0.0
    ensures Dot(Reject(v1, v2), v2) == 0.0
  {
    var f := Dot(v1, v2) / LengthSquared(v2);
    DotNSubLeft(v1, Project(v1, v2), v2, |v1|);
    DotScaleLeft(v2, v2, f);
    assert Dot(Project(v1, v2), v2) == f * LengthSquared(v2);
  }
}
