/**
 * The mutable vector math (`mutVec2`/`mutVec3`/`mutVec4`): the first
 * argument is an array updated in place and returned, and the immutable
 * folds copy their first argument into a fresh array before folding.
 */
module MutableVectors {
  import opened Vectors

  /** The current contents of every array of `vs`. */
  function Contents(vs: seq<array<real>>): (r: seq<Vec>)
    reads set k | 0 <= k < |vs| :: vs[k]
    ensures |r| == |vs|
    ensures forall k :: 0 <= k < |vs| ==> r[k] == vs[k][..]
  {
    seq(|vs|, k requires 0 <= k < |vs| reads set j | 0 <= j < |vs| :: vs[j] => vs[k][..])
  }

  /** The operations applied in place, one component at a time. */
  datatype Op = AddOp | SubOp | MulOp | MaxOp | MinOp

  function Combine(op: Op, v1: Vec, v2: Vec): (r: Vec)
    requires |v1| == |v2|
    ensures |r| == |v1|
    ensures forall i :: 0 <= i < |r| ==> r[i] == CombineReal(op, v1[i], v2[i])
  {
    match op
    case AddOp => Add(v1, v2)
    case SubOp => Sub(v1, v2)
    case MulOp => Vectors.Mul(v1, v2)
    case MaxOp => Max(v1, v2)
    case MinOp => Min(v1, v2)
  }

  function CombineReal(op: Op, a: real, b: real): real {
    match op
    case AddOp => a + b
    case SubOp => a - b
    case MulOp => a * b
    case MaxOp => MaxReal(a, b)
    case MinOp => MinReal(a, b)
  }

  /**
   * The in-place `add`, `sub`, `mul`, `max` and `min`: `v1` receives the
   * componentwise result and is itself returned. `v2` may be `v1` itself,
   * since every component is read before it is overwritten.
   */
  method Apply(op: Op, v1: array<real>, v2: array<real>) returns (r: array<real>)
    requires v1.Length == v2.Length
    modifies v1
    ensures r == v1
    ensures v1[..] == Combine(op, old(v1[..]), old(v2[..]))
    ensures v2 != v1 ==> v2[..] == old(v2[..])
  {
    ghost var a := v1[..];
    ghost var b := v2[..];
    var i := 0;
    while i < v1.Length
      invariant 0 <= i <= v1.Length
      invariant forall j :: 0 <= j < i ==> v1[j] == CombineReal(op, a[j], b[j])
      invariant forall j :: i <= j < v1.Length ==> v1[j] == a[j] && v2[j] == b[j]
      invariant v2 != v1 ==> v2[..] == b
    {
      v1[i] := CombineReal(op, v1[i], v2[i]);
      i := i + 1;
    }
    assert v1[..] == Combine(op, a, b);
    r := v1;
  }

  /** The in-place `scale`. */
  method Scale(v: array<real>, f: real) returns (r: array<real>)
    modifies v
    ensures r == v
    ensures v[..] == Vectors.Scale(old(v[..]), f)
  {
    ghost var a := v[..];
    var i := 0;
    while i < v.Length
      invariant 0 <= i <= v.Length
      invariant forall j :: 0 <= j < i ==> v[j] == a[j] * f
      invariant forall j :: i <= j < v.Length ==> v[j] == a[j]
    {
      v[i] := v[i] * f;
      i := i + 1;
    }
    forall j | 0 <= j < v.Length
      ensures v[..][j] == Vectors.Scale(a, f)[j]
    {
    }
    assert v[..] == Vectors.Scale(a, f);
    r := v;
  }

  /** The in-place `neg`. */
  method Neg(v: array<real>) returns (r: array<real>)
    modifies v
    ensures r == v
    ensures v[..] == Vectors.Neg(old(v[..]))
  {
    ghost var a := v[..];
    var i := 0;
    while i < v.Length
      invariant 0 <= i <= v.Length
      invariant forall j :: 0 <= j < i ==> v[j] == -a[j]
      invariant forall j :: i <= j < v.Length ==> v[j] == a[j]
    {
      v[i] := -v[i];
      i := i + 1;
    }
    assert v[..] == Vectors.Neg(a);
    r := v;
  }

  /** The fold the folding methods compute, `op` applied with each element of `vs` in turn. */
  function Fold(op: Op, v: Vec, vs: seq<Vec>): (r: Vec)
    requires AllDim(vs, |v|)
    ensures |r| == |v|
    decreases |vs|
  {
    if |vs| == 0 then v else Fold(op, Combine(op, v, vs[0]), vs[1..])
  }

  /** The fold is the immutable `addAll`/`subAll`/`maxAll`/`minAll` of the vector model. */
  lemma {:induction false} FoldIsImmutableFold(v: Vec, vs: seq<Vec>)
    requires AllDim(vs, |v|)
    ensures Fold(AddOp, v, vs) == AddAll(v, vs)
    ensures Fold(SubOp, v, vs) == SubAll(v, vs)
    ensures Fold(MaxOp, v, vs) == MaxAll(v, vs)
    ensures Fold(MinOp, v, vs) == MinAll(v, vs)
    decreases |vs|
  {
    if |vs| > 0 {
      FoldIsImmutableFold(Add(v, vs[0]), vs[1..]);
      FoldIsImmutableFold(Sub(v, vs[0]), vs[1..]);
      FoldIsImmutableFold(Max(v, vs[0]), vs[1..]);
      FoldIsImmutableFold(Min(v, vs[0]), vs[1..]);
    }
  }

  /** Which arrays of `vs` are `v` itself. */
  function Aliases(v: array<real>, vs: seq<array<real>>): (r: seq<bool>)
    ensures |r| == |vs|
    ensures forall k :: 0 <= k < |vs| ==> (r[k] <==> vs[k] == v)
  {
    seq(|vs|, k requires 0 <= k < |vs| => vs[k] == v)
  }

  /**
   * The fold computed in place, from element `from` of `vs` on, when the
   * elements flagged in `self` are the accumulating array itself: such an
   * element contributes the value accumulated so far, not its value at the
   * call.
   */
  function AliasedFold(op: Op, v: Vec, vs: seq<Vec>, self: seq<bool>, from: nat): (r: Vec)
    requires |self| == |vs| && AllDim(vs, |v|) && from <= |vs|
    ensures |r| == |v|
    decreases |vs| - from
  {
    if from == |vs| then v
    else AliasedFold(op, Combine(op, v, if self[from] then v else vs[from]), vs, self, from + 1)
  }

  /** Without aliasing, the in-place fold is the fold of the values at the call. */
  lemma {:induction false} AliasedFoldWithoutAliases(op: Op, v: Vec, vs: seq<Vec>, self: seq<bool>, from: nat)
    requires |self| == |vs| && AllDim(vs, |v|) && from <= |vs|
    requires forall k :: 0 <= k < |self| ==> !self[k]
    ensures AliasedFold(op, v, vs, self, from) == Fold(op, v, vs[from..])
    decreases |vs| - from
  {
    if from < |vs| {
      assert vs[from..][1..] == vs[from + 1..];
      AliasedFoldWithoutAliases(op, Combine(op, v, vs[from]), vs, self, from + 1);
    }
  }

  /** When no array of `vs` is `v`, the flags `Aliases(v, vs)` are all clear. */
  lemma NoAliasFold(op: Op, v: array<real>, vs: seq<array<real>>, start: Vec, values: seq<Vec>)
    requires |values| == |vs| && AllDim(values, |start|)
    requires forall k :: 0 <= k < |vs| ==> vs[k] != v
    ensures AliasedFold(op, start, values, Aliases(v, vs), 0) == Fold(op, start, values)
  {
    AliasedFoldWithoutAliases(op, start, values, Aliases(v, vs), 0);
    assert values[0..] == values;
  }

  /**
   * With aliasing it is not: `addAll(a, a, a)` with `a = [1]` doubles `a`
   * twice, giving `[4]`, where the fold of the values at the call gives `[3]`.
   */
  lemma SelfAddAllDoubles()
    ensures AliasedFold(AddOp, [1.0], [[1.0], [1.0]], [true, true], 0) == [4.0]
    ensures Fold(AddOp, [1.0], [[1.0], [1.0]]) == [3.0]
  {
    assert Combine(AddOp, [1.0], [1.0]) == [2.0];
    assert Combine(AddOp, [2.0], [2.0]) == [4.0];
    assert Combine(AddOp, [2.0], [1.0]) == [3.0];
  }

  /**
   * The mutable `addAll`/`subAll`/`maxAll`/`minAll`: each element of `vs`
   * is folded into `v` in place and `v` itself is returned. An element of
   * `vs` may be `v` itself; it then contributes the value accumulated so
   * far. When no element is `v`, the result is the fold of the values at
   * the call.
   */
  method FoldAll(op: Op, v: array<real>, vs: seq<array<real>>) returns (r: array<real>)
    requires forall k :: 0 <= k < |vs| ==> vs[k].Length == v.Length
    modifies v
    ensures r == v
    ensures v[..] == AliasedFold(op, old(v[..]), old(Contents(vs)), Aliases(v, vs), 0)
    ensures (forall k :: 0 <= k < |vs| ==> vs[k] != v) ==> v[..] == Fold(op, old(v[..]), old(Contents(vs)))
    ensures forall k :: 0 <= k < |vs| && vs[k] != v ==> vs[k][..] == old(vs[k][..])
  {
    ghost var values := Contents(vs);
    ghost var self := Aliases(v, vs);
    ghost var start := v[..];
    var k := 0;
    while k < |vs|
      invariant 0 <= k <= |vs|
      invariant forall j :: 0 <= j < |vs| && vs[j] != v ==> vs[j][..] == values[j]
      invariant AliasedFold(op, v[..], values, self, k) == AliasedFold(op, start, values, self, 0)
    {
      ghost var before := v[..];
      ghost var operand := if self[k] then before else values[k];
      var _ := Apply(op, v, vs[k]);
      assert v[..] == Combine(op, before, operand);
      k := k + 1;
    }
    if forall j :: 0 <= j < |vs| ==> vs[j] != v {
      NoAliasFold(op, v, vs, start, values);
    }
    r := v;
  }

  /**
   * The immutable folds: a copy of `v` is folded, so the result is a fresh
   * array and neither `v` nor any element of `vs` changes.
   */
  method ImmutableFoldAll(op: Op, v: array<real>, vs: seq<array<real>>) returns (r: array<real>)
    requires forall k :: 0 <= k < |vs| ==> vs[k].Length == v.Length
    ensures fresh(r)
    ensures r[..] == Fold(op, v[..], Contents(vs))
  {
    var copy := new real[v.Length](i requires 0 <= i < v.Length reads v => v[i]);
    assert copy[..] == v[..];
    r := FoldAll(op, copy, vs);
  }

  /**
   * The `mix` the mutable classes inherit: `v1` is scaled by `w` and `v2` by
   * `1 - w`, both in place, then `v2` is added into `v1`, which is returned.
   * Two distinct arrays leave the mix in `v1` and `v2` scaled; one array
   * passed twice is scaled by `w`, then by `1 - w`, then doubled.
   */
  method Mix(w: real, v1: array<real>, v2: array<real>) returns (r: array<real>)
    requires v1.Length == v2.Length
    modifies v1, v2
    ensures r == v1
    ensures v1 != v2 ==> v1[..] == Vectors.Mix(w, old(v1[..]), old(v2[..]))
    ensures v1 != v2 ==> v2[..] == Vectors.Scale(old(v2[..]), 1.0 - w)
    ensures v1 == v2 ==> v1[..] == Vectors.Scale(old(v1[..]), 2.0 * w * (1.0 - w))
  {
    ghost var a := v1[..];
    var s1 := Scale(v1, w);
    var s2 := Scale(v2, 1.0 - w);
    r := Apply(AddOp, s1, s2);
    if v1 == v2 {
      ScaleTwiceDoubled(a, w, 1.0 - w, 1.0, 2.0 * w * (1.0 - w));
    }
  }

  /**
   * The inherited `weightedSum`: `v1` is scaled by `w1` and `v2` by `w2` in
   * place, `v2` is added into `v1`, and `v1` is scaled by `1 / (w1 + w2)` and
   * returned. Two distinct arrays leave the weighted sum in `v1` and `v2`
   * scaled by `w2`; one array passed twice ends as `2 w1 w2 / (w1 + w2)`
   * times its contents.
   */
  method WeightedSum(w1: real, v1: array<real>, w2: real, v2: array<real>) returns (r: array<real>)
    requires v1.Length == v2.Length
    requires w1 + w2 != 0.0
    modifies v1, v2
    ensures r == v1
    ensures v1 != v2 ==> v1[..] == Vectors.WeightedSum(w1, old(v1[..]), w2, old(v2[..]))
    ensures v1 != v2 ==> v2[..] == Vectors.Scale(old(v2[..]), w2)
    ensures v1 == v2 ==> v1[..] == Vectors.Scale(old(v1[..]), 2.0 * w1 * w2 / (w1 + w2))
  {
    ghost var a, b := v1[..], v2[..];
    var s1 := Scale(v1, w1);
    var s2 := Scale(v2, w2);
    ghost var scaled := v1[..];
    ghost var added := Combine(AddOp, v1[..], v2[..]);
    var sum := Apply(AddOp, s1, s2);
    assert v1[..] == added;
    r := Scale(sum, 1.0 / (w1 + w2));
    assert v1[..] == Vectors.Scale(added, 1.0 / (w1 + w2));
    if v1 == v2 {
      assert scaled == Vectors.Scale(Vectors.Scale(a, w1), w2);
      assert added == Add(scaled, scaled);
      ScaleTwiceDoubled(a, w1, w2, 1.0 / (w1 + w2), 2.0 * w1 * w2 / (w1 + w2));
    } else {
      assert added == Add(Vectors.Scale(a, w1), Vectors.Scale(b, w2));
    }
  }

  /**
   * Scaling by `f`, then by `g`, and doubling is one scaling by `2 f g`;
   * scaling that by `h` is one scaling by `k = 2 f g h`.
   */
  lemma ScaleTwiceDoubled(a: Vec, f: real, g: real, h: real, k: real)
    requires k == 2.0 * f * g * h
    ensures Add(Vectors.Scale(Vectors.Scale(a, f), g), Vectors.Scale(Vectors.Scale(a, f), g))
         == Vectors.Scale(a, 2.0 * f * g)
    ensures Vectors.Scale(Add(Vectors.Scale(Vectors.Scale(a, f), g), Vectors.Scale(Vectors.Scale(a, f), g)), h)
         == Vectors.Scale(a, k)
  {
    var s := Vectors.Scale(Vectors.Scale(a, f), g);
    forall i | 0 <= i < |a|
      ensures Add(s, s)[i] == Vectors.Scale(a, 2.0 * f * g)[i]
      ensures Vectors.Scale(Add(s, s), h)[i] == Vectors.Scale(a, k)[i]
    {
      assert Add(s, s)[i] == a[i] * f * g + a[i] * f * g;
    }
  }

  /** The immutable `mix` and `weightedSum` of a vector with itself give it back. */
  lemma SelfMixIsSelf(a: Vec, w: real, w1: real, w2: real)
    requires w1 + w2 != 0.0
    ensures Vectors.Mix(w, a, a) == a
    ensures Vectors.WeightedSum(w1, a, w2, a) == a
  {
    forall i | 0 <= i < |a|
      ensures Vectors.Mix(w, a, a)[i] == a[i]
      ensures Vectors.WeightedSum(w1, a, w2, a)[i] == a[i]
    {
      assert Vectors.WeightedSum(w1, a, w2, a)[i] == (a[i] * w1 + a[i] * w2) * (1.0 / (w1 + w2));
      assert a[i] * w1 + a[i] * w2 == a[i] * (w1 + w2);
    }
  }

  /**
   * In place, one array passed twice is not given back: at `w = 1/2` the mix
   * halves `[1]`, and with weights 1 and 3 the weighted sum makes it `[1.5]`.
   */
  lemma SelfMixShrinks()
    ensures Vectors.Mix(0.5, [1.0], [1.0]) == [1.0]
    ensures Vectors.Scale([1.0], 2.0 * 0.5 * (1.0 - 0.5)) == [0.5]
    ensures Vectors.WeightedSum(1.0, [1.0], 3.0, [1.0]) == [1.0]
    ensures Vectors.Scale([1.0], 2.0 * 1.0 * 3.0 / (1.0 + 3.0)) == [1.5]
  {
    SelfMixIsSelf([1.0], 0.5, 1.0, 3.0);
  }

  /** The mutable `from` delegates to the immutable one and returns a fresh array. */
  method From(a: array<real>, offset: nat, d: nat) returns (r: array<real>)
    requires offset + d <= a.Length
    ensures fresh(r)
    ensures r[..] == Vectors.From(a[..], offset, d)
  {
    var v := Vectors.From(a[..], offset, d);
    r := new real[d](i requires 0 <= i < d => v[i]);
  }

  /** The mutable `project` delegates to the immutable one and returns a fresh array. */
  method Project(v1: array<real>, v2: array<real>) returns (r: array<real>)
    requires v1.Length == v2.Length
    requires LengthSquared(v2[..]) != 0.0
    ensures fresh(r)
    ensures r[..] == Vectors.Project(v1[..], v2[..])
  {
    var p := Vectors.Project(v1[..], v2[..]);
    r := new real[|p|](i requires 0 <= i < |p| => p[i]);
  }

  /** The mutable `reject` delegates to the immutable one and returns a fresh array. */
  method Reject(v1: array<real>, v2: array<real>) returns (r: array<real>)
    requires v1.Length == v2.Length
    requires LengthSquared(v2[..]) != 0.0
    ensures fresh(r)
    ensures r[..] == Vectors.Reject(v1[..], v2[..])
  {
    var p := Vectors.Reject(v1[..], v2[..]);
    r := new real[|p|](i requires 0 <= i < |p| => p[i]);
  }
}
