/**
 * LoraTorchTensor: a pair (A, B) that stands for the matrix product B A, batched over the leading dimensions
 * with dimensions of size 1 in A broadcast. Every operation on the pair is compared with the same operation
 * on the product.
 */
module LoraTensor {
  import opened Bits
  import opened Tensors

  datatype Error = AssertionFailed | NotImplemented | IndexOutOfRange | ShapeMismatch

  datatype Result<+T> = Ok(value: T) | Err(error: Error)

  datatype Lora = Lora(A: Tensor, B: Tensor) {
    function Rank(): nat
      requires |B.shape| >= 1
    {
      B.shape[|B.shape| - 1]
    }

    /** What __init__ asserts, for two or more dimensions. */
    predicate Constructed() {
      |A.shape| == |B.shape| >= 2 && A.shape[|A.shape| - 2] == B.shape[|B.shape| - 1]
    }

    /** The product is defined: each leading dimension of A is 1 or that of B. */
    ghost predicate Valid() {
      && Constructed() && A.Valid() && B.Valid()
      && forall i :: 0 <= i < |A.shape| - 2 ==> A.shape[i] == 1 || A.shape[i] == B.shape[i]
    }

    /** The property `shape`: of the product, not of the parts. */
    function Shape(): (r: seq<nat>)
      requires Constructed()
      ensures |r| == |A.shape|
    {
      B.shape[..|B.shape| - 1] + [A.shape[|A.shape| - 1]]
    }

    function SharedLead(): bool
      requires Constructed()
    {
      forall i :: 0 <= i < |A.shape| - 2 ==> A.shape[i] == 1
    }

    function BIndex(idx: seq<nat>, k: nat): seq<nat>
      requires |idx| >= 1
    {
      idx[..|idx| - 1] + [k]
    }

    function AIndex(idx: seq<nat>, k: nat): (r: seq<nat>)
      requires Constructed() && |idx| == |A.shape|
      ensures |r| == |idx|
    {
      seq(|idx| - 2, i requires 0 <= i < |idx| - 2 => if A.shape[i] == 1 then 0 else idx[i]) + [k, idx[|idx| - 1]]
    }

    function Term(idx: seq<nat>, k: nat): real
      requires Constructed() && |idx| == |A.shape|
    {
      B.At(BIndex(idx, k)) * A.At(AIndex(idx, k))
    }

    /** The first `n` terms of the row-by-column sum. */
    function Terms(idx: seq<nat>, n: nat): real
      requires Constructed() && |idx| == |A.shape|
    {
      if n == 0 then 0.0 else Terms(idx, n - 1) + Term(idx, n - 1)
    }

    /** The matrix the pair stands for. */
    function Product(): Tensor
      requires Constructed()
    {
      Build(Shape(), idx => if |idx| == |A.shape| then Terms(idx, Rank()) else 0.0)
    }
  }

  lemma ProductAt(p: Lora, idx: seq<nat>)
    requires p.Constructed() && InRange(p.Shape(), idx)
    ensures p.Product().At(idx) == p.Terms(idx, p.Rank())
  {
    hide Build;
    AtBuild(p.Shape(), idx => if |idx| == |p.A.shape| then p.Terms(idx, p.Rank()) else 0.0, idx);
  }

  lemma ProductShape(p: Lora)
    requires p.Constructed()
    ensures p.Product().Valid() && p.Product().shape == p.Shape()
  {
    hide Build;
  }

  /** Two sums agree when their terms do. */
  lemma {:induction false} SameTerms(p: Lora, idx: seq<nat>, q: Lora, jdx: seq<nat>, n: nat)
    requires p.Constructed() && q.Constructed() && |idx| == |p.A.shape| && |jdx| == |q.A.shape|
    requires forall k :: 0 <= k < n ==> p.Term(idx, k) == q.Term(jdx, k)
    ensures p.Terms(idx, n) == q.Terms(jdx, n)
  {
    hide Lora.Term, Lora.Constructed;
    if n > 0 {
      SameTerms(p, idx, q, jdx, n - 1);
      assert p.Term(idx, n - 1) == q.Term(jdx, n - 1);
    }
  }

  /** Two products agree at an index when the factors of every term do. */
  lemma SameProductAt(p: Lora, idx: seq<nat>, q: Lora, jdx: seq<nat>)
    requires p.Constructed() && q.Constructed() && InRange(p.Shape(), idx) && InRange(q.Shape(), jdx)
    requires p.Rank() == q.Rank()
    requires forall k :: 0 <= k < p.Rank() ==> p.Term(idx, k) == q.Term(jdx, k)
    ensures p.Product().At(idx) == q.Product().At(jdx)
  {
    hide Lora.Term, Lora.Terms, Lora.Product;
    ProductAt(p, idx);
    ProductAt(q, jdx);
    SameTerms(p, idx, q, jdx, p.Rank());
  }

  // ----- permute

  /** dims as torch takes them: negative values count from the end. */
  function Normalise(dims: seq<int>, n: nat): (r: seq<int>)
    ensures |r| == |dims|
  {
    seq(|dims|, i requires 0 <= i < |dims| => if dims[i] >= 0 then dims[i] - n else dims[i])
  }

  predicate ValidDims(dims: seq<int>, n: nat) {
    |dims| == n && (forall i :: 0 <= i < n ==> 0 <= dims[i] + n < n) && IsPermutation(Positive(dims, n))
  }

  function Positive(dims: seq<int>, n: nat): (r: seq<nat>)
    requires forall i :: 0 <= i < |dims| ==> 0 <= dims[i] + n
    ensures |r| == |dims|
  {
    seq(|dims|, i requires 0 <= i < |dims| => dims[i] + n)
  }

  function PermutePair(p: Lora, dims0: seq<int>): Result<Lora>
    requires p.Constructed()
  {
    var n := |p.A.shape|;
    var dims := Normalise(dims0, n);
    if dims == [] || !ValidDims(dims, n) then Err(ShapeMismatch)
    else
      var d := Positive(dims, n);
      if dims[n - 1] == -1 then
        if !p.SharedLead() then Err(AssertionFailed)
        else Ok(Lora(p.A, Permute(p.B, d)))
      else if n == 2 && dims[n - 1] == -2 && dims[n - 2] == -1 then Ok(Lora(Permute(p.B, d), Permute(p.A, d)))
      else Err(NotImplemented)
  }

  /** Every axis but the last moves; the last stays. */
  predicate LastFixed(d: seq<nat>) {
    IsPermutation(d) && |d| > 0 && d[|d| - 1] == |d| - 1
  }

  lemma LastFixedShapes(s: seq<nat>, d: seq<nat>, last: nat)
    requires |s| == |d| && LastFixed(d)
    ensures PermutedShape(s, d)[..|d| - 1] + [last] == PermutedShape(s[..|d| - 1] + [last], d)
    ensures PermutedShape(s, d)[|d| - 1] == s[|d| - 1]
  {
    var n := |d|;
    var a, b := PermutedShape(s, d)[..n - 1] + [last], PermutedShape(s[..n - 1] + [last], d);
    forall i | 0 <= i < n ensures a[i] == b[i] {
      if i < n - 1 { assert d[i] < n - 1; }
    }
  }

  lemma LastFixedPair(p: Lora, d: seq<nat>)
    requires p.Valid() && p.SharedLead() && |d| == |p.A.shape| && LastFixed(d)
    ensures var q := Lora(p.A, Permute(p.B, d));
            && q.Valid() && q.Constructed() && q.SharedLead() && q.Rank() == p.Rank()
            && q.Shape() == PermutedShape(p.Shape(), d)
  {
    hide Permute, IsPermutation;
    PermuteShape(p.B, d);
    LastFixedShapes(p.B.shape, d, p.A.shape[|d| - 1]);
  }

  /** Moving the leading axes commutes with replacing the last entry. */
  lemma SourceOfBIndex(d: seq<nat>, idx: seq<nat>, k: nat)
    requires LastFixed(d) && |idx| == |d|
    ensures SourceIndex(idx[..|idx| - 1] + [k], d) == SourceIndex(idx, d)[..|idx| - 1] + [k]
    ensures SourceIndex(idx, d)[|d| - 1] == idx[|d| - 1]
  {
    var n, j := |d|, idx[..|idx| - 1] + [k];
    assert SourceIndex(idx, d)[d[n - 1]] == idx[n - 1];
    forall e | 0 <= e < n ensures SourceIndex(j, d)[e] == (SourceIndex(idx, d)[..n - 1] + [k])[e] {
      var i := PositionOf(d, e);
      assert SourceIndex(j, d)[d[i]] == j[i] && SourceIndex(idx, d)[d[i]] == idx[i];
      if i == n - 1 { assert e == n - 1; }
    }
  }

  lemma LastFixedTerm(p: Lora, d: seq<nat>, idx: seq<nat>, k: nat)
    requires p.Valid() && p.SharedLead() && |d| == |p.A.shape| && LastFixed(d) && k < p.Rank()
    requires InRange(PermutedShape(p.Shape(), d), idx)
    requires Lora(p.A, Permute(p.B, d)).Constructed()
    ensures Lora(p.A, Permute(p.B, d)).Term(idx, k) == p.Term(SourceIndex(idx, d), k)
  {
    hide Build, Unravel, Ravel, Permute, Tensor.At, IsPermutation;
    var q := Lora(p.A, Permute(p.B, d));
    var src := SourceIndex(idx, d);
    SourceOfBIndex(d, idx, k);
    var j := q.BIndex(idx, k);
    BIndexInRange(p, d, idx, k);
    PermuteAt(p.B, d, j);
    assert q.AIndex(idx, k) == p.AIndex(src, k);
  }

  lemma BIndexInRange(p: Lora, d: seq<nat>, idx: seq<nat>, k: nat)
    requires p.Constructed() && |d| == |p.A.shape| && LastFixed(d) && k < p.Rank()
    requires InRange(PermutedShape(p.Shape(), d), idx)
    ensures InRange(PermutedShape(p.B.shape, d), p.BIndex(idx, k))
  {
    var n := |d|;
    forall i | 0 <= i < n ensures p.BIndex(idx, k)[i] < PermutedShape(p.B.shape, d)[i] {
      if i < n - 1 {
        assert d[i] < n - 1;
        assert idx[i] < PermutedShape(p.Shape(), d)[i];
      }
    }
  }

  lemma LastFixedAt(p: Lora, d: seq<nat>, idx: seq<nat>)
    requires p.Valid() && p.SharedLead() && |d| == |p.A.shape| && LastFixed(d)
    requires InRange(PermutedShape(p.Shape(), d), idx)
    ensures Lora(p.A, Permute(p.B, d)).Constructed()
    ensures Lora(p.A, Permute(p.B, d)).Product().At(idx) == Permute(p.Product(), d).At(idx)
  {
    hide *;
    LastFixedLengths(p, d, idx);
    ProductShape(p);
    LastFixedPair(p, d);
    PermuteShape(p.B, d);
    SourceInRange(p.Shape(), d, idx);
    PermuteAt(p.Product(), d, idx);
    SameAtSource(p, Lora(p.A, Permute(p.B, d)), d, idx);
  }

  lemma LastFixedLengths(p: Lora, d: seq<nat>, idx: seq<nat>)
    requires p.Valid() && |d| == |p.A.shape| && LastFixed(d) && InRange(PermutedShape(p.Shape(), d), idx)
    ensures |idx| == |d| == |p.B.shape| > 0 && IsPermutation(d) && p.Constructed()
  {
    hide IsPermutation;
  }

  lemma SameAtSource(p: Lora, q: Lora, d: seq<nat>, idx: seq<nat>)
    requires p.Valid() && p.Constructed() && p.SharedLead() && LastFixed(d) && IsPermutation(d)
    requires |d| == |p.A.shape| == |p.B.shape| == |idx|
    requires InRange(PermutedShape(p.Shape(), d), idx) && InRange(p.Shape(), SourceIndex(idx, d))
    requires q == Lora(p.A, Permute(p.B, d)) && q.Constructed() && |q.B.shape| > 0 && q.Rank() == p.Rank()
    requires q.Shape() == PermutedShape(p.Shape(), d)
    ensures q.Product().At(idx) == p.Product().At(SourceIndex(idx, d))
  {
    hide *;
    var src := SourceIndex(idx, d);
    LengthsAgree(q, p, idx, src);
    forall k | 0 <= k < p.Rank() ensures q.Term(idx, k) == p.Term(src, k) {
      LastFixedTerm(p, d, idx, k);
    }
    SameProductAt(q, idx, p, src);
  }

  lemma LengthsAgree(q: Lora, p: Lora, idx: seq<nat>, src: seq<nat>)
    requires p.Constructed() && q.Constructed() && q.A.shape == p.A.shape && |src| == |idx| == |p.A.shape|
    ensures |idx| == |q.A.shape| && |src| == |p.A.shape| && |q.B.shape| >= 1 && |p.B.shape| >= 1
  {
  }

  /** With the last axis in place only the leading axes of B move. */
  lemma PermuteLastFixed(p: Lora, d: seq<nat>)
    requires p.Valid() && p.SharedLead() && |d| == |p.A.shape| && LastFixed(d)
    ensures var q := Lora(p.A, Permute(p.B, d));
            q.Valid() && q.SharedLead() && q.Shape() == PermutedShape(p.Shape(), d) &&
            q.Product() == Permute(p.Product(), d)
  {
    hide InRange, Permute, Tensor.At, Lora.Product, IsPermutation, PermutedShape;
    var q := Lora(p.A, Permute(p.B, d));
    LastFixedPair(p, d);
    ProductShape(p);
    ProductShape(q);
    PermuteShape(p.Product(), d);
    var t := Permute(p.Product(), d);
    forall idx | InRange(q.Shape(), idx) ensures q.Product().At(idx) == t.At(idx) {
      LastFixedAt(p, d, idx);
    }
    Extensional(q.Product(), t);
  }

  /** A two-dimensional transpose exchanges and transposes the factors. */
  lemma TransposeFactors(p: Lora)
    requires p.Valid() && |p.A.shape| == 2
    ensures IsPermutation([1, 0])
    ensures var q := Lora(Permute(p.B, [1, 0]), Permute(p.A, [1, 0]));
            q.Valid() && q.SharedLead() && q.Product() == Permute(p.Product(), [1, 0])
  {
    hide InRange, Permute, Tensor.At, Lora.Product, PermutedShape;
    SwapIsPermutation();
    var q := Lora(Permute(p.B, [1, 0]), Permute(p.A, [1, 0]));
    TransposedPair(p);
    ProductShape(p);
    ProductShape(q);
    PermuteShape(p.Product(), [1, 0]);
    var t := Permute(p.Product(), [1, 0]);
    forall idx | InRange(q.Shape(), idx) ensures q.Product().At(idx) == t.At(idx) {
      TransposedAt(p, idx);
    }
    Extensional(q.Product(), t);
  }

  lemma SwapIsPermutation()
    ensures IsPermutation([1, 0])
  {
    assert 0 in [1, 0] && 1 in [1, 0];
  }

  lemma TransposedPair(p: Lora)
    requires p.Valid() && |p.A.shape| == 2 && IsPermutation([1, 0])
    ensures var q := Lora(Permute(p.B, [1, 0]), Permute(p.A, [1, 0]));
            && q.Valid() && q.Rank() == p.Rank()
            && q.Shape() == PermutedShape(p.Shape(), [1, 0])
  {
    hide Permute;
    PermuteShape(p.A, [1, 0]);
    PermuteShape(p.B, [1, 0]);
  }

  lemma SwapIndex(i: nat, j: nat)
    requires IsPermutation([1, 0])
    ensures SourceIndex([i, j], [1, 0]) == [j, i]
  {
    var src := SourceIndex([i, j], [1, 0]);
    assert src[[1, 0][0]] == i && src[[1, 0][1]] == j;
  }

  lemma SwapAt(t: Tensor, i: nat, j: nat)
    requires |t.shape| == 2 && IsPermutation([1, 0]) && i < t.shape[1] && j < t.shape[0]
    ensures Permute(t, [1, 0]).At([i, j]) == t.At([j, i])
  {
    hide Permute, Tensor.At, SourceIndex;
    PermuteAt(t, [1, 0], [i, j]);
    SwapIndex(i, j);
  }

  lemma TransposedAt(p: Lora, idx: seq<nat>)
    requires p.Valid() && |p.A.shape| == 2 && IsPermutation([1, 0])
    requires InRange(PermutedShape(p.Shape(), [1, 0]), idx)
    ensures Lora(Permute(p.B, [1, 0]), Permute(p.A, [1, 0])).Constructed()
    ensures Lora(Permute(p.B, [1, 0]), Permute(p.A, [1, 0])).Product().At(idx) == Permute(p.Product(), [1, 0]).At(idx)
  {
    hide Permute, Tensor.At, Lora.Product, SourceIndex;
    var q := Lora(Permute(p.B, [1, 0]), Permute(p.A, [1, 0]));
    TransposedPair(p);
    ProductShape(p);
    var c, r := idx[0], idx[1];
    assert idx == [c, r];
    SwapAt(p.Product(), c, r);
    forall k | 0 <= k < p.Rank() ensures q.Term(idx, k) == p.Term([r, c], k) {
      TransposedTerm(p, c, r, k);
    }
    SameProductAt(q, idx, p, [r, c]);
  }

  lemma TransposedTerm(p: Lora, c: nat, r: nat, k: nat)
    requires p.Valid() && |p.A.shape| == 2 && IsPermutation([1, 0]) && k < p.Rank()
    requires r < p.B.shape[0] && c < p.A.shape[1]
    ensures Lora(Permute(p.B, [1, 0]), Permute(p.A, [1, 0])).Constructed()
    ensures Lora(Permute(p.B, [1, 0]), Permute(p.A, [1, 0])).Term([c, r], k) == p.Term([r, c], k)
  {
    hide Permute, Tensor.At, SourceIndex;
    var q := Lora(Permute(p.B, [1, 0]), Permute(p.A, [1, 0]));
    TransposedPair(p);
    SwapAt(p.A, c, k);
    SwapAt(p.B, k, r);
    assert q.BIndex([c, r], k) == [c, k] && q.AIndex([c, r], k) == [k, r];
    assert p.BIndex([r, c], k) == [r, k] && p.AIndex([r, c], k) == [k, c];
  }

  /** Whenever permute returns, it returns the pair of the permuted product. */
  lemma PermuteCommutes(p: Lora, dims: seq<int>)
    requires p.Valid() && PermutePair(p, dims).Ok?
    ensures var d := Positive(Normalise(dims, |p.A.shape|), |p.A.shape|);
            && IsPermutation(d) && PermutePair(p, dims).value.Valid()
            && PermutePair(p, dims).value.Product() == Permute(p.Product(), d)
  {
    hide Permute, Lora.Product, Lora.Valid;
    var n := |p.A.shape|;
    var nd := Normalise(dims, n);
    var d := Positive(nd, n);
    if nd[n - 1] == -1 {
      PermuteLastFixed(p, d);
    } else {
      assert d == [1, 0];
      TransposeFactors(p);
    }
  }

  /** transpose and swapaxes: permute with two entries of the identity exchanged. */
  function Exchanged(n: nat, i: nat, j: nat): (r: seq<int>)
    requires i < n && j < n
    ensures |r| == n
  {
    seq(n, k requires 0 <= k < n => if k == i then j else if k == j then i else k)
  }

  function TransposePair(p: Lora, i: nat, j: nat): Result<Lora>
    requires p.Constructed() && i < |p.A.shape| && j < |p.A.shape|
  {
    PermutePair(p, Exchanged(|p.A.shape|, i, j))
  }

  // ----- reshape

  function Ones(n: nat): (r: seq<nat>)
    ensures |r| == n && forall i :: 0 <= i < n ==> r[i] == 1
  {
    seq(n, _ => 1)
  }

  /** The product of the dimensions, a -1 counting as 1. */
  function ProdInt(shape: seq<int>): int {
    if shape == [] then 1
    else ProdInt(shape[..|shape| - 1]) * (if shape[|shape| - 1] == -1 then 1 else shape[|shape| - 1])
  }

  /** Every -1 becomes the quotient that is left over; fails on a remainder, or on other negative dimensions. */
  function ExpandShape(shape: seq<int>, elements: nat): (r: Result<seq<nat>>)
    ensures r.Ok? ==> |r.value| == |shape|
  {
    if exists i :: 0 <= i < |shape| && shape[i] < -1 then Err(ShapeMismatch)
    else if forall i :: 0 <= i < |shape| ==> shape[i] != -1 then Ok(AsNats(shape, 0))
    else
      var known := ProdInt(shape);
      if known <= 0 || elements % known != 0 then Err(AssertionFailed)
      else Ok(AsNats(shape, elements / known))
  }

  function AsNats(shape: seq<int>, missing: nat): (r: seq<nat>)
    requires forall i :: 0 <= i < |shape| ==> shape[i] >= -1
    ensures |r| == |shape|
    ensures forall i :: 0 <= i < |shape| ==> r[i] == if shape[i] == -1 then missing else shape[i]
  {
    seq(|shape|, i requires 0 <= i < |shape| => if shape[i] == -1 then missing else shape[i])
  }

  function ReshapePair(p: Lora, shape: seq<int>): Result<Lora>
    requires p.Constructed()
  {
    if |shape| < 2 then Err(NotImplemented)
    else match ExpandShape(shape, Prod(p.Shape()))
      case Err(e) => Err(e)
      case Ok(expanded) => ReshapeTo(p, expanded)
  }

  /** A keeps its row size under leading dimensions of 1; B takes the rest. */
  function ReshapeTo(p: Lora, shape: seq<nat>): Result<Lora>
    requires p.Constructed() && |shape| >= 2
  {
    var n, columns := |shape|, p.A.shape[|p.A.shape| - 1];
    if shape[n - 1] != columns then Err(NotImplemented)
    else
      var shapeA, shapeB := Ones(n - 2) + [p.Rank(), columns], shape[..n - 1] + [p.Rank()];
      if Prod(shapeA) != |p.A.data| || Prod(shapeB) != |p.B.data| then Err(ShapeMismatch)
      else Ok(Lora(Reshape(p.A, shapeA), Reshape(p.B, shapeB)))
  }

  lemma {:induction false} OnesRavel(s: seq<nat>, idx: seq<nat>)
    requires |s| == |idx| && forall i :: 0 <= i < |s| ==> s[i] == 1 && idx[i] == 0
    ensures Prod(s) == 1 && Ravel(s, idx) == 0
  {
    if s != [] { OnesRavel(s[..|s| - 1], idx[..|idx| - 1]); }
  }

  /** Position of an element of the product: its row, counted through all leading dimensions, and its column. */
  lemma RowAndColumn(p: Lora, idx: seq<nat>)
    requires p.Constructed() && InRange(p.Shape(), idx)
    ensures var n, c := |idx|, p.A.shape[|idx| - 1];
            && Ravel(p.Shape(), idx) == Ravel(p.B.shape[..n - 1], idx[..n - 1]) * c + idx[n - 1]
            && c > 0 && Ravel(p.Shape(), idx) / c == Ravel(p.B.shape[..n - 1], idx[..n - 1])
            && Ravel(p.Shape(), idx) % c == idx[n - 1]
  {
    hide Ravel, Prod;
    var n, c := |idx|, p.A.shape[|idx| - 1];
    var s, i := p.B.shape[..n - 1], idx[..n - 1];
    assert idx == i + [idx[n - 1]] && p.Shape() == s + [c];
    RavelAppend(s, i, c, idx[n - 1]);
    assert idx[n - 1] < p.Shape()[n - 1];
    QuotientUnique(Ravel(s, i) * c + idx[n - 1], c, Ravel(s, i), idx[n - 1]);
  }

  lemma FlatB(p: Lora, idx: seq<nat>, k: nat)
    requires p.Valid() && InRange(p.Shape(), idx) && k < p.Rank()
    ensures var n := |idx|;
            var q := Ravel(p.B.shape[..n - 1], idx[..n - 1]) * p.Rank() + k;
            q < |p.B.data| && p.B.At(p.BIndex(idx, k)) == p.B.data[q]
  {
    hide Ravel, Prod;
    var n := |idx|;
    var s, i := p.B.shape[..n - 1], idx[..n - 1];
    assert p.B.shape == s + [p.Rank()];
    RavelAppend(s, i, p.Rank(), k);
    var j := i + [k];
    forall e | 0 <= e < n ensures j[e] < p.B.shape[e] {
      if e < n - 1 { assert idx[e] < p.Shape()[e]; }
    }
    assert InRange(p.B.shape, j);
    RavelInRange(p.B.shape, j);
  }

  lemma FlatA(p: Lora, idx: seq<nat>, k: nat)
    requires p.Valid() && p.SharedLead() && InRange(p.Shape(), idx) && k < p.Rank()
    ensures var n, c := |idx|, p.A.shape[|idx| - 1];
            k * c + idx[n - 1] < |p.A.data| && p.A.At(p.AIndex(idx, k)) == p.A.data[k * c + idx[n - 1]]
  {
    hide Ravel, Prod;
    var n, c := |idx|, p.A.shape[|idx| - 1];
    var s, z := p.A.shape[..n - 2], p.AIndex(idx, k)[..n - 2];
    OnesRavel(s, z);
    assert p.AIndex(idx, k) == (z + [k]) + [idx[n - 1]];
    assert p.A.shape == (s + [p.Rank()]) + [c];
    RavelAppend(s, z, p.Rank(), k);
    RavelAppend(s + [p.Rank()], z + [k], c, idx[n - 1]);
    assert idx[n - 1] < p.Shape()[n - 1];
    assert InRange(p.A.shape, p.AIndex(idx, k));
    RavelInRange(p.A.shape, p.AIndex(idx, k));
  }

  /** Two pairs over the same data agree at equal positions of the product. */
  lemma SameDataAt(p: Lora, idx: seq<nat>, q: Lora, jdx: seq<nat>)
    requires p.Valid() && q.Valid() && p.SharedLead() && q.SharedLead()
    requires p.A.data == q.A.data && p.B.data == q.B.data && p.Rank() == q.Rank()
    requires p.A.shape[|p.A.shape| - 1] == q.A.shape[|q.A.shape| - 1]
    requires InRange(p.Shape(), idx) && InRange(q.Shape(), jdx)
    requires Ravel(p.Shape(), idx) == Ravel(q.Shape(), jdx)
    ensures p.Product().At(idx) == q.Product().At(jdx)
  {
    hide Tensor.At, Lora.Product, Lora.SharedLead, Ravel, Prod;
    RowAndColumn(p, idx);
    RowAndColumn(q, jdx);
    forall k | 0 <= k < p.Rank() ensures p.Term(idx, k) == q.Term(jdx, k) {
      FlatB(p, idx, k);
      FlatB(q, jdx, k);
      FlatA(p, idx, k);
      FlatA(q, jdx, k);
    }
    SameProductAt(p, idx, q, jdx);
  }

  /** Pairs over the same data have products over the same data. */
  lemma SameDataProduct(p: Lora, q: Lora)
    requires p.Valid() && q.Valid() && p.SharedLead() && q.SharedLead()
    requires p.A.data == q.A.data && p.B.data == q.B.data && p.Rank() == q.Rank()
    requires p.A.shape[|p.A.shape| - 1] == q.A.shape[|q.A.shape| - 1] && Prod(p.Shape()) == Prod(q.Shape())
    ensures q.Product() == Reshape(p.Product(), q.Shape())
  {
    hide Tensor.At, Lora.Product, Lora.SharedLead, InRange, Ravel, Unravel, Lora.Shape, Prod;
    ProductShape(p);
    ProductShape(q);
    var s, t := p.Product(), q.Product();
    forall i | 0 <= i < |t.data| ensures t.data[i] == s.data[i] {
      var idx, jdx := Unravel(s.shape, i), Unravel(t.shape, i);
      UnravelInRange(s.shape, i);
      UnravelInRange(t.shape, i);
      AtUnravel(s, i);
      AtUnravel(t, i);
      SameDataAt(p, idx, q, jdx);
    }
    assert t.data == s.data;
  }

  lemma AtUnravel(t: Tensor, i: nat)
    requires t.Valid() && i < |t.data|
    ensures t.At(Unravel(t.shape, i)) == t.data[i]
  {
    UnravelInRange(t.shape, i);
  }

  lemma {:induction false} ProdOne(s: seq<nat>)
    requires Prod(s) == 1
    ensures forall i :: 0 <= i < |s| ==> s[i] == 1
  {
    if s != [] {
      FactorsOfOne(Prod(s[..|s| - 1]), s[|s| - 1]);
      ProdOne(s[..|s| - 1]);
    }
  }

  lemma FactorsOfOne(a: nat, b: nat)
    requires a * b == 1
    ensures a == 1 && b == 1
  {
    if a > 1 && b > 0 { MulMono(2, a, b); }
    if b > 1 && a > 0 { MulMono(2, b, a); }
  }

  lemma ProdSplit(s: seq<nat>)
    requires |s| >= 2
    ensures Prod(s) == Prod(s[..|s| - 2]) * s[|s| - 2] * s[|s| - 1]
    ensures Prod(s) == Prod(s[..|s| - 1]) * s[|s| - 1]
  {
    assert s[..|s| - 1][..|s| - 2] == s[..|s| - 2];
  }

  lemma {:induction false} ProdOnes(n: nat)
    ensures Prod(Ones(n)) == 1
  {
    if n > 0 {
      assert Ones(n)[..n - 1] == Ones(n - 1);
      ProdOnes(n - 1);
    }
  }

  lemma CancelFactor(a: nat, b: nat, r: nat)
    requires r > 0 && a * r == b * r
    ensures a == b
  {
    if a < b { MulMono(a + 1, b, r); }
    if b < a { MulMono(b + 1, a, r); }
  }

  /** A can only be reshaped to leading dimensions of 1 if it had them before, or has no elements. */
  lemma ReshapedLead(p: Lora, columns: nat)
    requires p.Valid() && p.Rank() > 0 && columns == p.A.shape[|p.A.shape| - 1] > 0
    requires Prod(p.A.shape) == p.Rank() * columns
    ensures p.SharedLead()
  {
    hide Prod;
    ProdSplit(p.A.shape);
    var lead, m := Prod(p.A.shape[..|p.A.shape| - 2]), p.Rank() * columns;
    assert lead * p.Rank() * columns == lead * m == 1 * m;
    assert m > 0 by { MulMono(1, columns, p.Rank()); }
    CancelFactor(lead, 1, m);
    ProdOne(p.A.shape[..|p.A.shape| - 2]);
  }

  lemma ProdAppend(s: seq<nat>, n: nat)
    ensures Prod(s + [n]) == Prod(s) * n
  {
    assert (s + [n])[..|s|] == s;
  }

  /** Dimensions and parts of a successful reshape. */
  lemma ReshapeParts(p: Lora, shape: seq<nat>)
    requires p.Valid() && |shape| >= 2 && ReshapeTo(p, shape).Ok?
    ensures var q := ReshapeTo(p, shape).value;
            && q.Valid() && q.SharedLead() && q.Shape() == shape && q.Rank() == p.Rank()
            && q.A.data == p.A.data && q.B.data == p.B.data
            && q.A.shape == Ones(|shape| - 2) + [p.Rank(), p.A.shape[|p.A.shape| - 1]]
            && q.B.shape == shape[..|shape| - 1] + [p.Rank()]
  {
    hide Prod;
    var q := ReshapeTo(p, shape).value;
    assert q.Shape() == shape;
  }

  /** A successful reshape keeps the number of elements of the product. */
  lemma ReshapeSizes(p: Lora, shape: seq<nat>)
    requires p.Valid() && p.Rank() > 0 && |shape| >= 2 && ReshapeTo(p, shape).Ok?
    ensures Prod(p.A.shape) == p.Rank() * p.A.shape[|p.A.shape| - 1]
    ensures Prod(shape) == Prod(p.Shape())
  {
    ReshapeData(p, shape);
    hide *;
    var n, c, r := |shape|, p.A.shape[|p.A.shape| - 1], p.Rank();
    LeadOnes(n - 2, r, c);
    SameRows(p.B.shape[..|p.B.shape| - 1], shape[..n - 1], r, c);
  }

  lemma LeadOnes(n: nat, r: nat, c: nat)
    ensures Prod((Ones(n) + [r]) + [c]) == r * c
  {
    hide *;
    ProdOnes(n);
    ProdAppend(Ones(n), r);
    ProdAppend(Ones(n) + [r], c);
  }

  /** The shapes taken apart, and the sizes that the data of a successful reshape has. */
  lemma ReshapeData(p: Lora, shape: seq<nat>)
    requires p.Valid() && |shape| >= 2 && ReshapeTo(p, shape).Ok?
    ensures p.Constructed() && |p.A.shape| == |p.B.shape| >= 2
    ensures var (n, c, r, rows) := (|shape|, p.A.shape[|p.A.shape| - 1], p.Rank(), p.B.shape[..|p.B.shape| - 1]);
            && Prod(p.A.shape) == Prod((Ones(n - 2) + [r]) + [c]) && Prod(rows + [r]) == Prod(shape[..n - 1] + [r])
            && p.Shape() == rows + [c] && shape == shape[..n - 1] + [c]
  {
    hide Prod;
    var n, c, r := |shape|, p.A.shape[|p.A.shape| - 1], p.Rank();
    assert Ones(n - 2) + [r, c] == (Ones(n - 2) + [r]) + [c];
    assert p.B.shape == p.B.shape[..|p.B.shape| - 1] + [r];
    ShapeParts(p);
    hide Lora.Shape;
  }

  /** Rows that fill B alike fill the product alike. */
  lemma SameRows(rows: seq<nat>, rows': seq<nat>, r: nat, c: nat)
    requires r > 0 && Prod(rows + [r]) == Prod(rows' + [r])
    ensures Prod(rows + [c]) == Prod(rows' + [c])
  {
    hide Prod;
    ProdAppend(rows, r);
    ProdAppend(rows', r);
    CancelFactor(Prod(rows), Prod(rows'), r);
    ProdAppend(rows, c);
    ProdAppend(rows', c);
  }

  lemma ShapeParts(p: Lora)
    requires p.Constructed()
    ensures p.Shape() == p.B.shape[..|p.B.shape| - 1] + [p.A.shape[|p.A.shape| - 1]]
  {
  }

  /** Whenever reshape returns, it returns the pair of the reshaped product. */
  lemma ReshapeToCommutes(p: Lora, shape: seq<nat>)
    requires p.Valid() && p.Rank() > 0 && |shape| >= 2 && ReshapeTo(p, shape).Ok?
    ensures var q := ReshapeTo(p, shape).value;
            q.Valid() && q.SharedLead() && q.Shape() == shape && Prod(shape) == Prod(p.Shape()) &&
            q.Product() == Reshape(p.Product(), shape)
  {
    hide Lora.Product, Prod, Lora.SharedLead, ReshapeTo, Lora.Shape;
    var q := ReshapeTo(p, shape).value;
    ReshapeParts(p, shape);
    ReshapeSizes(p, shape);
    var c := p.A.shape[|p.A.shape| - 1];
    if c > 0 {
      ReshapedLead(p, c);
      SameDataProduct(p, q);
    } else {
      NoColumns(p);
      NoColumns(q);
    }
  }

  lemma NoColumns(p: Lora)
    requires p.Constructed() && p.A.shape[|p.A.shape| - 1] == 0
    ensures p.Product().shape == p.Shape() && p.Product().data == []
  {
    ProdSplit(p.Shape());
    ProductShape(p);
  }

  // ----- rank 0

  lemma RankZero(p: Lora, idx: seq<nat>)
    requires p.Constructed() && p.Rank() == 0
    ensures p.Product().At(idx) == 0.0
  {
    if InRange(p.Shape(), idx) {
      ProductAt(p, idx);
    } else {
      ProductShape(p);
      hide Lora.Product;
    }
  }

  ghost predicate AllZero(t: Tensor) {
    forall i :: 0 <= i < |t.data| ==> t.data[i] == 0.0
  }

  /** A product of rank 0 holds nothing but zeros. */
  lemma RankZeroData(p: Lora)
    requires p.Constructed() && p.Rank() == 0
    ensures p.Product().Valid() && p.Product().shape == p.Shape() && AllZero(p.Product())
  {
    ProductShape(p);
    hide Lora.Product, Tensor.Valid, Tensor.At, Unravel;
    var t := p.Product();
    forall i | 0 <= i < |t.data| ensures t.data[i] == 0.0 {
      AtUnravel(t, i);
      RankZero(p, Unravel(t.shape, i));
    }
  }

  lemma ZeroReshape(t: Tensor, u: Tensor)
    requires AllZero(t) && AllZero(u) && t.Valid() && u.Valid()
    ensures u == Reshape(t, u.shape) <==> Prod(u.shape) == Prod(t.shape)
  {
    hide Prod;
    if Prod(u.shape) == Prod(t.shape) { assert u.data == t.data; }
  }

  /** At rank 0 neither part has elements that would tie the new rows to the old ones. */
  lemma ReshapeToExactly(p: Lora, shape: seq<nat>)
    requires p.Valid() && |shape| >= 2 && ReshapeTo(p, shape).Ok?
    ensures p.Rank() > 0 ==> Prod(shape) == Prod(p.Shape())
    ensures var q := ReshapeTo(p, shape).value;
            && q.Valid() && q.SharedLead() && q.Shape() == shape
            && (q.Product() == Reshape(p.Product(), shape) <==> Prod(shape) == Prod(p.Shape()))
  {
    ReshapeParts(p, shape);
    var q := ReshapeTo(p, shape).value;
    if p.Rank() > 0 {
      hide Lora.Product, Prod, Lora.SharedLead, ReshapeTo, Lora.Shape, Lora.Valid;
      ReshapeToCommutes(p, shape);
    } else {
      hide Lora.Product, Prod, Lora.SharedLead, ReshapeTo, Lora.Shape, AllZero, Tensor.Valid;
      RankZeroData(p);
      RankZeroData(q);
      ZeroReshape(p.Product(), q.Product());
    }
  }

  /**
   * Whenever reshape returns, -1 expanded, it returns the pair of the reshaped product, and keeps the dimensions
   * given; except that at rank 0 it may return a pair of another number of elements than the product's.
   */
  lemma ReshapeCommutes(p: Lora, shape: seq<int>)
    requires p.Valid() && ReshapePair(p, shape).Ok?
    ensures var q := ReshapePair(p, shape).value;
            && q.Valid() && q.SharedLead() && |q.Shape()| == |shape|
            && (forall i :: 0 <= i < |shape| && shape[i] != -1 ==> q.Shape()[i] == shape[i])
            && (p.Rank() > 0 ==> Prod(q.Shape()) == Prod(p.Shape()))
            && (q.Product() == Reshape(p.Product(), q.Shape()) <==> Prod(q.Shape()) == Prod(p.Shape()))
  {
    hide Lora.Product, Prod, Lora.SharedLead, ReshapeTo, ProdInt;
    ReshapeToExactly(p, ExpandShape(shape, Prod(p.Shape())).value);
  }

  /** A 1 by 1 product of rank 0 is reshaped to 2 by 1. */
  lemma ReshapeGrows()
    ensures var p := Lora(Tensor([0, 1], []), Tensor([1, 0], []));
            && p.Valid() && p.Constructed() && p.Shape() == [1, 1] && ReshapePair(p, [2, 1]).Ok?
            && ReshapePair(p, [2, 1]).value.Shape() == [2, 1]
  {
    var p := Lora(Tensor([0, 1], []), Tensor([1, 0], []));
    EmptyPair(1);
    EmptyPair(2);
    EmptyReshape();
    GivenShape([2, 1], Prod(p.Shape()));
    hide *;
  }

  lemma GivenShape(shape: seq<nat>, elements: nat)
    ensures ExpandShape(shape, elements) == Ok(shape)
  {
    forall i | 0 <= i < |shape| ensures shape[i] >= 0 { }
    assert AsNats(shape, 0) == shape;
  }

  lemma EmptyPair(rows: nat)
    ensures var p := Lora(Tensor([0, 1], []), Tensor([rows, 0], []));
            p.Valid() && p.Constructed() && p.Shape() == [rows, 1]
  {
    MatrixProd(0, 1);
    MatrixProd(rows, 0);
    hide Prod;
  }

  lemma EmptyReshape()
    ensures var p := Lora(Tensor([0, 1], []), Tensor([1, 0], []));
            ReshapeTo(p, [2, 1]) == Ok(Lora(Tensor([0, 1], []), Tensor([2, 0], [])))
    ensures var p := Lora(Tensor([0, 1], []), Tensor([1, 0], []));
            forall shape: seq<int> {:trigger ReshapePair(p, shape)} ::
              |shape| >= 2 && ExpandShape(shape, Prod(p.Shape())) == Ok([2, 1]) ==>
                  ReshapePair(p, shape) == ReshapeTo(p, [2, 1])
  {
    MatrixProd(0, 1);
    MatrixProd(2, 0);
    hide Prod, ExpandShape;
    assert Ones(0) + [0, 1] == [0, 1] && [2, 1][..1] + [0] == [2, 0];
  }

  lemma MatrixProd(a: nat, b: nat)
    ensures Prod([a, b]) == a * b
  {
    assert [a, b] == ([] + [a]) + [b];
    ProdAppend([], a);
    ProdAppend([] + [a], b);
  }
}
