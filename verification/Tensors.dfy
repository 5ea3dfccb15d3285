/** Dense tensors in row-major order, with the few torch operations the converters apply to them. */
module Tensors {
  import opened Bits

  // ----- shapes and indices

  function Prod(shape: seq<nat>): nat {
    if shape == [] then 1 else Prod(shape[..|shape| - 1]) * shape[|shape| - 1]
  }

  /** One entry per dimension, each below the dimension. */
  predicate InRange(shape: seq<nat>, idx: seq<nat>) {
    |idx| == |shape| && forall i :: 0 <= i < |shape| ==> idx[i] < shape[i]
  }

  lemma InRangeLength(s: seq<nat>, idx: seq<nat>)
    requires InRange(s, idx)
    ensures |s| == |idx|
  {
  }

  /** The position of a multi-index in row-major order. */
  function Ravel(shape: seq<nat>, idx: seq<nat>): nat
    requires |idx| == |shape|
  {
    if shape == [] then 0
    else Ravel(shape[..|shape| - 1], idx[..|idx| - 1]) * shape[|shape| - 1] + idx[|idx| - 1]
  }

  function Unravel(shape: seq<nat>, p: nat): (idx: seq<nat>)
    ensures |idx| == |shape|
  {
    if shape == [] then []
    else
      var n := shape[|shape| - 1];
      if n == 0 then Unravel(shape[..|shape| - 1], 0) + [0]
      else Unravel(shape[..|shape| - 1], p / n) + [p % n]
  }

  lemma SplitMul(q: nat, n: nat, r: nat, m: nat)
    requires r < n && q < m
    ensures q * n + r < m * n
    ensures (q * n + r) / n == q && (q * n + r) % n == r
  {
    assert (q + 1) * n == q * n + n;
    MulMono(q + 1, m, n);
    QuotientUnique(q * n + r, n, q, r);
  }

  lemma {:induction false} RavelInRange(shape: seq<nat>, idx: seq<nat>)
    requires InRange(shape, idx)
    ensures Ravel(shape, idx) < Prod(shape)
    ensures Unravel(shape, Ravel(shape, idx)) == idx
  {
    if shape != [] {
      var s, i, n, k := shape[..|shape| - 1], idx[..|idx| - 1], shape[|shape| - 1], idx[|idx| - 1];
      RavelInRange(s, i);
      SplitMul(Ravel(s, i), n, k, Prod(s));
      assert idx == i + [k];
    }
  }

  lemma DivBelow(p: nat, m: nat, n: nat)
    requires p < m * n
    ensures n > 0 && p / n < m
  {
    if n > 0 {
      var q, r := p / n, p % n;
      assert p == q * n + r;
      if q >= m { MulMono(m, q, n); }
    }
  }

  lemma {:induction false} UnravelInRange(shape: seq<nat>, p: nat)
    requires p < Prod(shape)
    ensures InRange(shape, Unravel(shape, p))
    ensures Ravel(shape, Unravel(shape, p)) == p
  {
    if shape != [] {
      var s, n := shape[..|shape| - 1], shape[|shape| - 1];
      assert shape == s + [n] && Prod(shape) == Prod(s) * n;
      hide *;
      DivBelow(p, Prod(s), n);
      UnravelInRange(s, p / n);
      UnravelStep(s, n, p);
    }
  }

  lemma UnravelStep(s: seq<nat>, n: nat, p: nat)
    requires n > 0 && InRange(s, Unravel(s, p / n)) && Ravel(s, Unravel(s, p / n)) == p / n
    ensures InRange(s + [n], Unravel(s + [n], p)) && Ravel(s + [n], Unravel(s + [n], p)) == p
  {
    UnravelAppend(s, n, p);
    QuotientParts(p, n);
    hide *;
    InRangeSnoc(s, n, Unravel(s, p / n), p % n);
    RavelAppend(s, Unravel(s, p / n), n, p % n);
  }

  lemma UnravelAppend(s: seq<nat>, n: nat, p: nat)
    requires n > 0
    ensures Unravel(s + [n], p) == Unravel(s, p / n) + [p % n]
  {
    assert (s + [n])[..|s|] == s;
  }

  lemma QuotientParts(p: nat, n: nat)
    requires n > 0
    ensures p == p / n * n + p % n && p % n < n
  {
  }

  lemma InRangeSnoc(s: seq<nat>, n: nat, idx: seq<nat>, k: nat)
    requires InRange(s, idx) && k < n
    ensures InRange(s + [n], idx + [k])
  {
  }

  lemma RavelAppend(shape: seq<nat>, idx: seq<nat>, n: nat, k: nat)
    requires |idx| == |shape|
    ensures Ravel(shape + [n], idx + [k]) == Ravel(shape, idx) * n + k
    ensures Prod(shape + [n]) == Prod(shape) * n
  {
    assert (shape + [n])[..|shape|] == shape && (idx + [k])[..|idx|] == idx;
  }

  // ----- tensors

  datatype Tensor = Tensor(shape: seq<nat>, data: seq<real>) {
    ghost predicate Valid() {
      |data| == Prod(shape)
    }

    /** The element at a multi-index; 0 outside the shape. */
    function At(idx: seq<nat>): real {
      if InRange(shape, idx) && Ravel(shape, idx) < |data| then data[Ravel(shape, idx)] else 0.0
    }
  }

  function Build(shape: seq<nat>, f: seq<nat> -> real): (t: Tensor)
    ensures t.Valid() && t.shape == shape
  {
    Tensor(shape, seq(Prod(shape), p requires 0 <= p => f(Unravel(shape, p))))
  }

  lemma AtBuild(shape: seq<nat>, f: seq<nat> -> real, idx: seq<nat>)
    requires InRange(shape, idx)
    ensures Build(shape, f).At(idx) == f(idx)
  {
    hide Unravel, Ravel;
    RavelInRange(shape, idx);
  }

  ghost predicate SameElements(t: Tensor, u: Tensor) {
    t.shape == u.shape && forall idx :: InRange(t.shape, idx) ==> t.At(idx) == u.At(idx)
  }

  lemma Extensional(t: Tensor, u: Tensor)
    requires t.Valid() && u.Valid() && SameElements(t, u)
    ensures t == u
  {
    hide Unravel, Ravel, InRange;
    forall p | 0 <= p < |t.data| ensures t.data[p] == u.data[p] {
      UnravelInRange(t.shape, p);
      var idx := Unravel(t.shape, p);
      assert t.At(idx) == t.data[p] && u.At(idx) == u.data[p];
    }
    assert t.data == u.data;
  }

  // ----- reshape

  function Reshape(t: Tensor, shape: seq<nat>): Tensor {
    Tensor(shape, t.data)
  }

  // ----- permute

  predicate IsPermutation(dims: seq<nat>) {
    && (forall i :: 0 <= i < |dims| ==> dims[i] < |dims|)
    && (forall i, j :: 0 <= i < j < |dims| ==> dims[i] != dims[j])
    && (forall d :: 0 <= d < |dims| ==> d in dims)
  }

  /** Where dimension `d` of the source went. */
  function PositionOf(dims: seq<nat>, d: nat): (i: nat)
    requires d in dims
    ensures i < |dims| && dims[i] == d
  {
    if dims[0] == d then 0 else 1 + PositionOf(dims[1..], d)
  }

  function PermutedShape(shape: seq<nat>, dims: seq<nat>): (r: seq<nat>)
    requires |dims| == |shape| && IsPermutation(dims)
    ensures |r| == |shape| && forall i :: 0 <= i < |r| ==> r[i] == shape[dims[i]]
  {
    seq(|dims|, i requires 0 <= i < |dims| => shape[dims[i]])
  }

  /** The source index of index `idx` of the permuted tensor. */
  function SourceIndex(idx: seq<nat>, dims: seq<nat>): (r: seq<nat>)
    requires IsPermutation(dims) && |idx| == |dims|
    ensures |r| == |idx| && forall i :: 0 <= i < |idx| ==> r[dims[i]] == idx[i]
  {
    seq(|dims|, d requires 0 <= d < |dims| => idx[PositionOf(dims, d)])
  }

  function Permute(t: Tensor, dims: seq<nat>): Tensor
    requires |dims| == |t.shape| && IsPermutation(dims)
  {
    Build(PermutedShape(t.shape, dims), idx => if |idx| == |dims| then t.At(SourceIndex(idx, dims)) else 0.0)
  }

  lemma SourceInRange(shape: seq<nat>, dims: seq<nat>, idx: seq<nat>)
    requires |dims| == |shape| && IsPermutation(dims) && InRange(PermutedShape(shape, dims), idx)
    ensures InRange(shape, SourceIndex(idx, dims))
  {
    var src := SourceIndex(idx, dims);
    forall d | 0 <= d < |shape| ensures src[d] < shape[d] {
      var i := PositionOf(dims, d);
      assert src[dims[i]] == idx[i];
    }
  }

  lemma PermuteShape(t: Tensor, dims: seq<nat>)
    requires |dims| == |t.shape| && IsPermutation(dims)
    ensures Permute(t, dims).Valid() && Permute(t, dims).shape == PermutedShape(t.shape, dims)
  {
  }

  lemma PermuteAt(t: Tensor, dims: seq<nat>, idx: seq<nat>)
    requires |dims| == |t.shape| && IsPermutation(dims) && InRange(PermutedShape(t.shape, dims), idx)
    ensures Permute(t, dims).At(idx) == t.At(SourceIndex(idx, dims))
  {
    hide Build;
    AtBuild(PermutedShape(t.shape, dims), idx => if |idx| == |dims| then t.At(SourceIndex(idx, dims)) else 0.0, idx);
  }
}
