/** LlamaModel.permute: the rows of each head, split into halves, interleaved; on a tensor and on a LoRA pair. */
module HeadLayout {
  import opened Bits
  import opened Tensors
  import opened LoraTensor
  import opened LoraCat

  // ----- rows

  /** Row `z` of part `y` of head `x`, when a head has `a` parts of `b` rows. */
  function Row(x: nat, a: nat, y: nat, b: nat, z: nat): nat {
    (x * a + y) * b + z
  }

  function Rows(h: nat, a: nat, b: nat): nat {
    h * a * b
  }

  lemma RowInRange(h: nat, x: nat, a: nat, y: nat, b: nat, z: nat)
    requires x < h && y < a && z < b
    ensures Row(x, a, y, b, z) < Rows(h, a, b)
  {
    RowInside(x, h, a, y);
    RowInside(x * a + y, h * a, b, z);
  }

  /** Every row is one row of one part of one head. */
  lemma RowSplit(h: nat, a: nat, b: nat, r: nat) returns (x: nat, y: nat, z: nat)
    requires r < Rows(h, a, b)
    ensures x < h && y < a && z < b && r == Row(x, a, y, b, z)
  {
    DivBelow(r, h * a, b);
    var q := r / b;
    z := r % b;
    DivBelow(q, h, a);
    x, y := q / a, q % a;
    assert r == q * b + z && q == x * a + y;
  }

  lemma RowUnique(x: nat, a: nat, y: nat, b: nat, z: nat, x': nat, y': nat, z': nat)
    requires y < a && z < b && y' < a && z' < b && Row(x, a, y, b, z) == Row(x', a, y', b, z')
    ensures x == x' && y == y' && z == z'
  {
    var r := Row(x, a, y, b, z);
    QuotientUnique(r, b, x * a + y, z);
    QuotientUnique(r, b, x' * a + y', z');
    QuotientUnique(x * a + y, a, x, y);
    QuotientUnique(x' * a + y', a, x', y');
  }

  // ----- splitting the first dimension into three

  function Split(h: nat, a: nat, b: nat, rest: seq<nat>): (r: seq<nat>)
    ensures |r| == |rest| + 3
  {
    [h, a, b] + rest
  }

  lemma SplitProd(h: nat, a: nat, b: nat, rest: seq<nat>)
    ensures Prod(Split(h, a, b, rest)) == Rows(h, a, b) * Prod(rest) == Prod([Rows(h, a, b)] + rest)
  {
    SplitRavel(h, a, b, rest, 0, 0, 0, rest);
  }

  lemma SplitRavel(h: nat, a: nat, b: nat, rest: seq<nat>, x: nat, y: nat, z: nat, i: seq<nat>)
    requires |i| == |rest|
    ensures Prod(Split(h, a, b, rest)) == Rows(h, a, b) * Prod(rest) == Prod([Rows(h, a, b)] + rest)
    ensures Ravel(Split(h, a, b, rest), Split(x, y, z, i)) == Ravel([Rows(h, a, b)] + rest, [Row(x, a, y, b, z)] + i)
  {
    assert Split(h, a, b, rest) == [h] + ([a] + ([b] + rest)) && Split(x, y, z, i) == [x] + ([y] + ([z] + i));
    hide *;
    RavelFront(b, rest, z, i);
    RavelFront(a, [b] + rest, y, [z] + i);
    RavelFront(h, [a] + ([b] + rest), x, [y] + ([z] + i));
    RavelFront(Rows(h, a, b), rest, Row(x, a, y, b, z), i);
    RowArithmetic(h, a, b, x, y, z, Prod(rest), Prod([b] + rest), Prod([a] + ([b] + rest)), Ravel(rest, i));
  }

  lemma RowArithmetic(h: nat, a: nat, b: nat, x: nat, y: nat, z: nat, p: nat, bp: nat, abp: nat, r: nat)
    requires bp == b * p && abp == a * bp
    ensures h * abp == Rows(h, a, b) * p
    ensures x * abp + (y * bp + (z * p + r)) == Row(x, a, y, b, z) * p + r
  {
    ThreeFactors(h, a, b, p);
    ThreeFactors(x, a, b, p);
    assert y * bp == y * b * p;
    assert Row(x, a, y, b, z) == x * a * b + y * b + z;
    assert (x * a * b + y * b + z) * p == x * a * b * p + y * b * p + z * p;
  }

  lemma ThreeFactors(x: nat, a: nat, b: nat, p: nat)
    ensures x * (a * (b * p)) == x * a * b * p
  {
    assert a * (b * p) == a * b * p;
    assert x * (a * b * p) == x * a * b * p;
  }

  lemma SplitInRange(h: nat, a: nat, b: nat, rest: seq<nat>, x: nat, y: nat, z: nat, i: seq<nat>)
    requires x < h && y < a && z < b && InRange(rest, i)
    ensures InRange(Split(h, a, b, rest), Split(x, y, z, i))
    ensures InRange([Rows(h, a, b)] + rest, [Row(x, a, y, b, z)] + i)
  {
    RowInRange(h, x, a, y, b, z);
    hide Row;
    InRangeFront(Rows(h, a, b), rest, Row(x, a, y, b, z), i);
  }

  /** Reshaping between the flat rows and (head, part, row) keeps every element. */
  lemma SplitAt(t: Tensor, u: Tensor, h: nat, a: nat, b: nat, rest: seq<nat>, x: nat, y: nat, z: nat, i: seq<nat>)
    requires t.Valid() && t.data == u.data && x < h && y < a && z < b && InRange(rest, i)
    requires t.shape == [Rows(h, a, b)] + rest && u.shape == Split(h, a, b, rest)
    ensures u.Valid() && u.At(Split(x, y, z, i)) == t.At([Row(x, a, y, b, z)] + i)
  {
    SplitRavel(h, a, b, rest, x, y, z, i);
    SplitInRange(h, a, b, rest, x, y, z, i);
    hide Ravel, InRange, Split, Row, Prod, Rows;
  }

  // ----- exchanging the second and third dimension

  function Swap12(n: nat): (r: seq<nat>)
    ensures |r| == n
  {
    seq(n, i requires 0 <= i < n => if i == 1 then 2 else if i == 2 then 1 else i)
  }

  lemma Swap12Permutes(n: nat)
    requires n >= 3
    ensures IsPermutation(Swap12(n))
  {
    var d := Swap12(n);
    forall e | 0 <= e < n ensures e in d {
      assert d[if e == 1 then 2 else if e == 2 then 1 else e] == e;
    }
  }

  lemma Swap12Shape(h: nat, a: nat, b: nat, rest: seq<nat>)
    requires IsPermutation(Swap12(|rest| + 3))
    ensures PermutedShape(Split(h, a, b, rest), Swap12(|rest| + 3)) == Split(h, b, a, rest)
  {
    hide IsPermutation;
  }

  lemma Swap12Source(x: nat, y: nat, z: nat, i: seq<nat>)
    requires IsPermutation(Swap12(|i| + 3))
    ensures SourceIndex(Split(x, z, y, i), Swap12(|i| + 3)) == Split(x, y, z, i)
  {
    var d, idx := Swap12(|i| + 3), Split(x, z, y, i);
    var src := SourceIndex(idx, d);
    forall e | 0 <= e < |idx| ensures src[e] == Split(x, y, z, i)[e] {
      var p := if e == 1 then 2 else if e == 2 then 1 else e;
      assert d[p] == e && src[d[p]] == idx[p];
    }
  }

  /** reshape, swapaxes(1, 2), reshape back; the rows of a head were `a` parts of `b` and become `b` groups of `a`. */
  function SwapParts(t: Tensor, h: nat, a: nat, b: nat): Tensor
    requires t.shape != []
  {
    Swap12Permutes(|t.shape| + 2);
    Reshape(Permute(Reshape(t, Split(h, a, b, t.shape[1..])), Swap12(|t.shape| + 2)), t.shape)
  }

  ghost predicate Divides(t: Tensor, h: nat, a: nat, b: nat) {
    t.Valid() && t.shape != [] && t.shape[0] == Rows(h, a, b)
  }

  lemma RowsSwap(h: nat, a: nat, b: nat)
    ensures Rows(h, b, a) == Rows(h, a, b)
  {
    assert b * a == a * b;
  }

  lemma SwapPartsValid(t: Tensor, h: nat, a: nat, b: nat)
    requires Divides(t, h, a, b)
    ensures SwapParts(t, h, a, b).Valid() && SwapParts(t, h, a, b).shape == t.shape
    ensures Rows(h, b, a) == Rows(h, a, b)
  {
    var rest := t.shape[1..];
    Swap12Permutes(|t.shape| + 2);
    Swap12Shape(h, a, b, rest);
    SplitProd(h, a, b, rest);
    SplitProd(h, b, a, rest);
    RowsSwap(h, a, b);
    assert t.shape == [t.shape[0]] + rest;
    hide Prod, Split, Swap12, IsPermutation, Rows;
    PermuteShape(Reshape(t, Split(h, a, b, rest)), Swap12(|t.shape| + 2));
  }

  /** Row `z` of part `y` becomes row `y` of group `z`, in every head. */
  lemma SwapPartsRow(t: Tensor, h: nat, a: nat, b: nat, x: nat, y: nat, z: nat, i: seq<nat>)
    requires Divides(t, h, a, b) && x < h && y < a && z < b && InRange(t.shape[1..], i)
    ensures SwapParts(t, h, a, b).At([Row(x, b, z, a, y)] + i) == t.At([Row(x, a, y, b, z)] + i)
  {
    DividesShape(t, h, a, b);
    hide *;
    var rest, n := t.shape[1..], |t.shape| + 2;
    var u := Reshape(t, Split(h, a, b, rest));
    ReshapeIs(t, Split(h, a, b, rest));
    SwapPartsValid(t, h, a, b);
    SwapPartsData(t, h, a, b);
    Swap12Shape(h, a, b, rest);
    PermuteShape(u, Swap12(n));
    InRangeLength(rest, i);
    Swap12Source(x, y, z, i);
    SplitInRange(h, b, a, rest, x, z, y, i);
    SplitAt(t, u, h, a, b, rest, x, y, z, i);
    PermuteAt(u, Swap12(n), Split(x, z, y, i));
    SplitAt(SwapParts(t, h, a, b), Permute(u, Swap12(n)), h, b, a, rest, x, z, y, i);
  }

  lemma DividesShape(t: Tensor, h: nat, a: nat, b: nat)
    requires Divides(t, h, a, b)
    ensures t.Valid() && t.shape == [Rows(h, a, b)] + t.shape[1..]
  {
    hide Tensor.Valid, Rows;
  }

  lemma ReshapeIs(t: Tensor, shape: seq<nat>)
    ensures Reshape(t, shape).data == t.data && Reshape(t, shape).shape == shape
  {
  }

  lemma SwapPartsData(t: Tensor, h: nat, a: nat, b: nat)
    requires t.shape != []
    ensures IsPermutation(Swap12(|t.shape| + 2))
    ensures SwapParts(t, h, a, b).data == Permute(Reshape(t, Split(h, a, b, t.shape[1..])), Swap12(|t.shape| + 2)).data
  {
    Swap12Permutes(|t.shape| + 2);
    hide IsPermutation, Permute, Split, Swap12;
  }

  /** Swapping the roles of parts and groups undoes it. */
  lemma SwapPartsInverse(t: Tensor, h: nat, a: nat, b: nat)
    requires Divides(t, h, a, b)
    ensures Divides(SwapParts(t, h, a, b), h, b, a)
    ensures SwapParts(SwapParts(t, h, a, b), h, b, a) == t
  {
    var s := SwapParts(t, h, a, b);
    SwapPartsValid(t, h, a, b);
    SwapPartsValid(s, h, b, a);
    var v := SwapParts(s, h, b, a);
    hide Row, Rows, SwapParts, Tensor.At, Tensor.Valid, InRange, Divides;
    forall idx | InRange(t.shape, idx) ensures v.At(idx) == t.At(idx) {
      SwapBackAt(t, h, a, b, idx);
    }
    Extensional(v, t);
  }

  lemma SwapBackAt(t: Tensor, h: nat, a: nat, b: nat, idx: seq<nat>)
    requires Divides(t, h, a, b) && Divides(SwapParts(t, h, a, b), h, b, a) && InRange(t.shape, idx)
    requires SwapParts(t, h, a, b).shape == t.shape != [] && t.shape[0] == Rows(h, a, b)
    ensures SwapParts(SwapParts(t, h, a, b), h, b, a).At(idx) == t.At(idx)
  {
    hide *;
    InRangeTail(t.shape, idx);
    assert idx == [idx[0]] + idx[1..];
    var x, y, z := RowSplit(h, a, b, idx[0]);
    SwapPartsRow(t, h, a, b, x, y, z, idx[1..]);
    SwapPartsRow(SwapParts(t, h, a, b), h, b, a, x, z, y, idx[1..]);
  }

  // ----- LlamaModel.permute

  function HalfHead(rows: nat, h: nat): nat
    requires h > 0
  {
    rows / h / 2
  }

  /** `h` heads: n_head_kv where it is given, n_head otherwise. */
  function PermuteHeads(t: Tensor, h: nat): Result<Tensor> {
    if t.shape == [] || h == 0 then Err(IndexOutOfRange)
    else
      var m := HalfHead(t.shape[0], h);
      if Prod(Split(h, 2, m, t.shape[1..])) != |t.data| then Err(ShapeMismatch) else Ok(SwapParts(t, h, 2, m))
  }

  /** LlamaModel.permute: the number of key and value heads, where it is given, replaces that of the query heads. */
  function LlamaPermute(t: Tensor, nHead: nat, nHeadKv: Option<nat>): Result<Tensor> {
    PermuteHeads(t, if nHeadKv.Some? && nHead != nHeadKv.value then nHeadKv.value else nHead)
  }

  lemma LlamaPermuteHeads(t: Tensor, nHead: nat, h: nat)
    ensures LlamaPermute(t, nHead, None) == PermuteHeads(t, nHead)
    ensures LlamaPermute(t, nHead, Some(h)) == PermuteHeads(t, h)
  {
    hide PermuteHeads;
  }

  ghost predicate EvenHeads(rows: nat, h: nat) {
    h > 0 && rows % (2 * h) == 0
  }

  lemma HalfHeads(rows: nat, h: nat)
    requires h > 0
    ensures EvenHeads(rows, h) <==> rows == Rows(h, 2, HalfHead(rows, h))
    ensures EvenHeads(rows, h) ==> rows / h == 2 * HalfHead(rows, h)
  {
    var m := rows / h / 2;
    assert h * 2 * m == (2 * h) * m;
    if rows % (2 * h) == 0 {
      var q := rows / (2 * h);
      assert rows == (2 * h) * q;
      assert rows == (2 * q) * h;
      QuotientUnique(rows, h, 2 * q, 0);
    } else if rows == (2 * h) * m {
      assert rows == m * (2 * h);
      QuotientUnique(rows, 2 * h, m, 0);
    }
  }

  /** It fails exactly when the rows do not divide into an even number per head, unless there are no elements. */
  lemma PermuteHeadsOk(t: Tensor, h: nat)
    requires t.Valid() && t.shape != []
    ensures t.data != [] ==> (PermuteHeads(t, h).Ok? <==> EvenHeads(t.shape[0], h))
    ensures EvenHeads(t.shape[0], h) ==> PermuteHeads(t, h).Ok? && Divides(t, h, 2, HalfHead(t.shape[0], h))
  {
    if h > 0 {
      var m, rest := HalfHead(t.shape[0], h), t.shape[1..];
      SplitProd(h, 2, m, rest);
      RavelSplit(t.shape, t.shape);
      HalfHeads(t.shape[0], h);
      hide Prod, Split, SwapParts, Rows, HalfHead, EvenHeads;
      if t.data != [] && t.shape[0] * Prod(rest) == Rows(h, 2, m) * Prod(rest) {
        CancelFactor(t.shape[0], Rows(h, 2, m), Prod(rest));
      }
    }
  }

  /** Row `k` of half `t` of a head moves to row `t` of pair `k` of that head, with all its columns. */
  lemma PermuteHeadsRow(w: Tensor, h: nat, x: nat, t: nat, k: nat, i: seq<nat>)
    requires w.Valid() && w.shape != [] && EvenHeads(w.shape[0], h)
    requires h > 0 && x < h && t < 2 && k < HalfHead(w.shape[0], h) && InRange(w.shape[1..], i)
    ensures var (r, m) := (PermuteHeads(w, h), HalfHead(w.shape[0], h));
            r.Ok? && r.value.shape == w.shape && r.value.At([Row(x, m, k, 2, t)] + i) == w.At([Row(x, 2, t, m, k)] + i)
  {
    hide *;
    var m := HalfHead(w.shape[0], h);
    PermuteHeadsOk(w, h);
    PermuteHeadsIs(w, h);
    SwapPartsValid(w, h, 2, m);
    SwapPartsRow(w, h, 2, m, x, t, k, i);
  }

  /** Those rows in numbers: t * (hd / 2) + k and 2 k + t within head x of hd rows. */
  lemma HeadRows(rows: nat, h: nat, x: nat, t: nat, k: nat)
    requires h > 0 && EvenHeads(rows, h)
    ensures var (m, hd) := (HalfHead(rows, h), rows / h);
            m == hd / 2 && Row(x, m, k, 2, t) == x * hd + 2 * k + t && Row(x, 2, t, m, k) == x * hd + t * (hd / 2) + k
  {
    HalfHeads(rows, h);
    HeadRowsOf(x, HalfHead(rows, h), t, k);
    hide Row;
  }

  lemma HeadRowsOf(x: nat, m: nat, t: nat, k: nat)
    ensures Row(x, m, k, 2, t) == x * (2 * m) + 2 * k + t
    ensures Row(x, 2, t, m, k) == x * (2 * m) + t * m + k
  {
    assert (x * 2 + t) * m == x * (2 * m) + t * m;
  }

  lemma PermuteHeadsIs(w: Tensor, h: nat)
    requires PermuteHeads(w, h).Ok?
    ensures w.shape != [] && h > 0 && PermuteHeads(w, h).value == SwapParts(w, h, 2, HalfHead(w.shape[0], h))
  {
    hide SwapParts, Prod, Split, HalfHead;
  }

  /** The re-layout with halves and pairs exchanged restores the weights. */
  lemma PermuteHeadsUndone(w: Tensor, h: nat)
    requires w.Valid() && w.shape != [] && h > 0 && EvenHeads(w.shape[0], h)
    ensures PermuteHeads(w, h).Ok? && PermuteHeads(w, h).value.shape != []
    ensures SwapParts(PermuteHeads(w, h).value, h, HalfHead(w.shape[0], h), 2) == w
  {
    hide *;
    var m := HalfHead(w.shape[0], h);
    PermuteHeadsOk(w, h);
    PermuteHeadsIs(w, h);
    SwapPartsValid(w, h, 2, m);
    SwapPartsInverse(w, h, 2, m);
  }

  // ----- LlamaModel.permute on a pair

  function PermuteHeadsPair(p: Lora, h: nat): Result<Lora>
    requires p.Constructed()
  {
    var shape := p.Shape();
    if h == 0 then Err(IndexOutOfRange)
    else
      match ReshapeTo(p, Split(h, 2, HalfHead(shape[0], h), shape[1..]))
      case Err(e) => Err(e)
      case Ok(q) =>
        if !q.Constructed() || |q.A.shape| < 3 then Err(AssertionFailed)
        else
          match TransposePair(q, 1, 2)
          case Err(e) => Err(e)
          case Ok(r) => if r.Constructed() then ReshapeTo(r, shape) else Err(AssertionFailed)
  }

  lemma ExchangedSwap12(n: nat)
    requires n >= 3
    ensures Positive(Normalise(Exchanged(n, 1, 2), n), n) == Swap12(n)
  {
  }

  /** The pair after the first reshape and the exchange. */
  lemma TransposedParts(q: Lora)
    requires q.Valid() && |q.A.shape| >= 4 && TransposePair(q, 1, 2).Ok?
    ensures var r := TransposePair(q, 1, 2).value;
            && IsPermutation(Swap12(|q.A.shape|)) && r.Valid() && r.Rank() == q.Rank()
            && r.Product() == Permute(q.Product(), Swap12(|q.A.shape|))
  {
    var n := |q.A.shape|;
    ExchangedSwap12(n);
    PermuteCommutes(q, Exchanged(n, 1, 2));
    TransposedRank(q);
    hide IsPermutation, Permute, Lora.Product, Lora.Valid, PermutePair, Exchanged, Normalise, Positive;
  }

  lemma TransposedRank(q: Lora)
    requires q.Valid() && |q.A.shape| >= 4 && TransposePair(q, 1, 2).Ok?
    ensures TransposePair(q, 1, 2).value.B.shape != [] && TransposePair(q, 1, 2).value.Rank() == q.Rank()
  {
    var n := |q.A.shape|;
    var dims := Normalise(Exchanged(n, 1, 2), n);
    assert dims[n - 1] == -1;
    var d := Positive(dims, n);
    hide Permute, IsPermutation;
    assert TransposePair(q, 1, 2).value.B == Permute(q.B, d);
    PermuteShape(q.B, d);
    assert d[n - 1] == n - 1;
  }

  lemma PairCommutes(p: Lora, h: nat)
    requires p.Valid() && p.Rank() > 0 && PermuteHeadsPair(p, h).Ok?
    ensures var q := PermuteHeadsPair(p, h).value;
            q.Valid() && q.Shape() == p.Shape() && PermuteHeads(p.Product(), h) == Ok(q.Product())
  {
    ProductShape(p);
    PairSteps(p, h);
    hide *;
    var wide := Split(h, 2, HalfHead(p.Shape()[0], h), p.Shape()[1..]);
    var q := ReshapeTo(p, wide).value;
    PairChain(p, h, wide, q, TransposePair(q, 1, 2).value);
  }

  lemma ZeroAt(t: Tensor, idx: seq<nat>)
    requires AllZero(t)
    ensures t.At(idx) == 0.0
  {
    hide InRange, Ravel;
  }

  lemma BuildZeros(shape: seq<nat>, f: seq<nat> -> real)
    requires forall idx :: f(idx) == 0.0
    ensures AllZero(Build(shape, f))
  {
    hide Prod, Unravel;
    var t := Build(shape, f);
    forall i | 0 <= i < |t.data| ensures t.data[i] == 0.0 {
      assert t.data[i] == f(Unravel(shape, i));
    }
  }

  lemma PermuteZeros(t: Tensor, dims: seq<nat>)
    requires |dims| == |t.shape| && IsPermutation(dims) && AllZero(t)
    ensures AllZero(Permute(t, dims))
  {
    forall idx ensures t.At(idx) == 0.0 { ZeroAt(t, idx); }
    hide IsPermutation, AllZero, Build, Tensor.At;
    BuildZeros(PermutedShape(t.shape, dims), idx => if |idx| == |dims| then t.At(SourceIndex(idx, dims)) else 0.0);
  }

  lemma PermuteHeadsAre(t: Tensor, h: nat)
    requires PermuteHeads(t, h).Ok?
    ensures t.shape != [] && h > 0
    ensures var (m, rest, n) := (HalfHead(t.shape[0], h), t.shape[1..], |t.shape| + 2);
            && PermuteHeads(t, h) == Ok(SwapParts(t, h, 2, m)) && SwapParts(t, h, 2, m).shape == t.shape
            && |t.data| == Prod(Split(h, 2, m, rest)) && |rest| + 3 == n
  {
    hide Prod, HalfHead, Permute, IsPermutation;
  }

  /** A re-layout of zeros that goes through gives zeros. */
  lemma PermuteHeadsZeros(t: Tensor, h: nat)
    requires t.Valid() && AllZero(t) && PermuteHeads(t, h).Ok?
    ensures var r := PermuteHeads(t, h).value; r.Valid() && r.shape == t.shape && AllZero(r)
  {
    hide *;
    PermuteHeadsAre(t, h);
    var m, rest, n := HalfHead(t.shape[0], h), t.shape[1..], |t.shape| + 2;
    var u := Reshape(t, Split(h, 2, m, rest));
    ReshapeIs(t, Split(h, 2, m, rest));
    Swap12Permutes(n);
    SplitProd(h, 2, m, rest);
    SplitProd(h, m, 2, rest);
    RowsSwap(h, 2, m);
    Swap12Shape(h, 2, m, rest);
    SwapPartsData(t, h, 2, m);
    PermuteShape(u, Swap12(n));
    ZeroData(t, u);
    PermuteZeros(u, Swap12(n));
    ZeroData(Permute(u, Swap12(n)), SwapParts(t, h, 2, m));
    ValidLength(t);
    ValidLength(Permute(u, Swap12(n)));
    ValidLength(SwapParts(t, h, 2, m));
  }

  lemma ZeroData(t: Tensor, u: Tensor)
    requires AllZero(t) && u.data == t.data
    ensures AllZero(u)
  {
  }

  lemma ValidLength(t: Tensor)
    ensures t.Valid() <==> |t.data| == Prod(t.shape)
  {
    hide Prod;
  }

  lemma PermuteHeadsEmpty(t: Tensor, h: nat)
    requires t.Valid() && t.shape != [] && h > 0 && t.data == []
    ensures PermuteHeads(t, h).Ok?
  {
    var m, rest := HalfHead(t.shape[0], h), t.shape[1..];
    SplitProd(h, 2, m, rest);
    RavelSplit(t.shape, t.shape);
    NoRows(t.shape[0], h, Prod(rest));
    hide Prod, Split, SwapParts, Rows, HalfHead;
  }

  lemma NoRows(rows: nat, h: nat, p: nat)
    requires h > 0 && rows * p == 0
    ensures Rows(h, 2, HalfHead(rows, h)) * p == 0
  {
    if p > 0 {
      if rows > 0 { MulMono(1, rows, p); }
      assert HalfHead(0, h) == 0;
    }
  }

  /** No rows lost, none made up: an even number per head, or nothing to lay out. */
  ghost predicate LaidOut(p: Lora, h: nat)
    requires p.Constructed()
  {
    h > 0 && (EvenHeads(p.Shape()[0], h) || Prod(p.Shape()) == 0)
  }

  lemma LaidOutExactly(p: Lora, h: nat)
    requires p.Constructed() && h > 0
    ensures PermuteHeads(p.Product(), h).Ok? <==> LaidOut(p, h)
  {
    ProductShape(p);
    assert p.Shape() != [];
    hide Lora.Product, Prod, PermuteHeads, EvenHeads, Lora.Shape;
    var t := p.Product();
    PermuteHeadsOk(t, h);
    if t.data == [] { PermuteHeadsEmpty(t, h); }
  }

  lemma RankZeroPair(p: Lora, h: nat)
    requires p.Valid() && p.Constructed() && p.Rank() == 0 && PermuteHeadsPair(p, h).Ok?
    ensures var q := PermuteHeadsPair(p, h).value;
            q.Valid() && q.Constructed() && q.Rank() == 0 && q.Shape() == p.Shape()
  {
    PairSteps(p, h);
    var wide := Split(h, 2, HalfHead(p.Shape()[0], h), p.Shape()[1..]);
    hide *;
    var q := ReshapeTo(p, wide).value;
    ZeroChain(p, wide, q, TransposePair(q, 1, 2).value);
  }

  lemma ZeroChain(p: Lora, wide: seq<nat>, q: Lora, r: Lora)
    requires p.Valid() && p.Constructed() && p.B.shape != [] && p.Rank() == 0 && |p.Shape()| >= 2
    requires |wide| == |p.Shape()| + 2 && ReshapeTo(p, wide) == Ok(q) && q.Constructed() && |q.A.shape| >= 3
    requires TransposePair(q, 1, 2) == Ok(r) && r.Constructed() && ReshapeTo(r, p.Shape()).Ok?
    ensures var s := ReshapeTo(r, p.Shape()).value;
            s.Valid() && s.Constructed() && |s.B.shape| >= 1 && s.Rank() == 0 && s.Shape() == p.Shape()
  {
    hide *;
    ReshapeToExactly(p, wide);
    SameRank(p, wide);
    TransposedParts(q);
    ReshapeToExactly(r, p.Shape());
    SameRank(r, p.Shape());
  }

  lemma SameZeros(t: Tensor, u: Tensor)
    requires t.Valid() && u.Valid() && t.shape == u.shape && AllZero(t) && AllZero(u)
    ensures t == u
  {
    hide Prod;
    assert t.data == u.data;
  }

  /**
   * The re-layout of a pair is the pair of the re-layout of its product, whenever it returns; except that at rank 0
   * it also returns where the product cannot be laid out.
   */
  lemma PermuteHeadsPairCommutes(p: Lora, h: nat)
    requires p.Valid() && PermuteHeadsPair(p, h).Ok?
    ensures var q := PermuteHeadsPair(p, h).value;
            && q.Valid() && q.Shape() == p.Shape()
            && (PermuteHeads(p.Product(), h) == Ok(q.Product()) <==> p.Rank() > 0 || LaidOut(p, h))
  {
    PairSteps(p, h);
    ShapeParts(p);
    assert |p.B.shape| >= 1;
    hide *;
    if p.Rank() > 0 {
      PairCommutes(p, h);
    } else {
      var q := PermuteHeadsPair(p, h).value;
      RankZeroPair(p, h);
      LaidOutExactly(p, h);
      RankZeroData(p);
      RankZeroData(q);
      if PermuteHeads(p.Product(), h).Ok? {
        PermuteHeadsZeros(p.Product(), h);
        SameZeros(PermuteHeads(p.Product(), h).value, q.Product());
      }
    }
  }

  lemma PairChain(p: Lora, h: nat, wide: seq<nat>, q: Lora, r: Lora)
    requires p.Valid() && p.Constructed() && p.B.shape != [] && p.Rank() > 0 && h > 0 && |p.Shape()| >= 2
    requires wide == Split(h, 2, HalfHead(p.Shape()[0], h), p.Shape()[1..]) && |wide| == |p.Shape()| + 2
    requires ReshapeTo(p, wide) == Ok(q) && q.Constructed() && |q.A.shape| >= 3 && TransposePair(q, 1, 2) == Ok(r)
    requires p.Product().Valid() && p.Product().shape == p.Shape()
    requires r.Constructed() && ReshapeTo(r, p.Shape()).Ok?
    ensures var s := ReshapeTo(r, p.Shape()).value;
            s.Valid() && s.Shape() == p.Shape() && PermuteHeads(p.Product(), h) == Ok(s.Product())
  {
    hide *;
    ReshapeToCommutes(p, wide);
    SameRank(p, wide);
    TransposedParts(q);
    ReshapeToCommutes(r, p.Shape());
    PermuteHeadsSteps(p.Product(), h, wide);
  }

  lemma PairSteps(p: Lora, h: nat)
    requires p.Valid() && PermuteHeadsPair(p, h).Ok?
    ensures p.Constructed() && |p.Shape()| >= 2 && h > 0
    ensures var (shape, wide) := (p.Shape(), Split(h, 2, HalfHead(p.Shape()[0], h), p.Shape()[1..]));
            && |wide| == |shape| + 2 && ReshapeTo(p, wide).Ok? && ReshapeTo(p, wide).value.Constructed()
            && |ReshapeTo(p, wide).value.A.shape| >= 3 && TransposePair(ReshapeTo(p, wide).value, 1, 2).Ok?
            && TransposePair(ReshapeTo(p, wide).value, 1, 2).value.Constructed()
            && ReshapeTo(TransposePair(ReshapeTo(p, wide).value, 1, 2).value, shape).Ok?
            && PermuteHeadsPair(p, h) == ReshapeTo(TransposePair(ReshapeTo(p, wide).value, 1, 2).value, shape)
  {
    hide ReshapeTo, TransposePair, Split, HalfHead;
  }

  lemma SameRank(p: Lora, shape: seq<nat>)
    requires p.Constructed() && |shape| >= 2 && ReshapeTo(p, shape).Ok?
    ensures var q := ReshapeTo(p, shape).value;
            |q.A.shape| == |shape| == |q.B.shape| && q.Rank() == p.Rank() && q.Constructed()
  {
    hide Prod;
  }

  lemma PermuteHeadsSteps(t: Tensor, h: nat, wide: seq<nat>)
    requires t.Valid() && t.shape != [] && h > 0
    requires wide == Split(h, 2, HalfHead(t.shape[0], h), t.shape[1..]) && Prod(wide) == Prod(t.shape)
    ensures |wide| == |t.shape| + 2 && IsPermutation(Swap12(|wide|))
    ensures PermuteHeads(t, h) == Ok(Reshape(Permute(Reshape(t, wide), Swap12(|wide|)), t.shape))
  {
    assert |t.data| == Prod(t.shape);
    hide Split, Prod, HalfHead, Swap12, IsPermutation, Permute;
    Swap12Permutes(|wide|);
  }

  /** On the LoRA pair of a matrix it goes through exactly if the heads split the rows evenly, or at rank 0. */
  lemma PermuteHeadsPairOk(p: Lora, h: nat)
    requires p.Valid() && |p.A.shape| == 2
    ensures PermuteHeadsPair(p, h).Ok? <==> EvenHeads(p.B.shape[0], h) || (h > 0 && p.Rank() == 0)
  {
    if h > 0 {
      if EvenHeads(p.B.shape[0], h) || p.Rank() == 0 { EvenHeadsOk(p, h); }
      if PermuteHeadsPair(p, h).Ok? { OkEvenHeads(p, h); }
    }
    hide *;
  }

  lemma MatrixShape(p: Lora)
    requires p.Valid() && |p.A.shape| == 2
    ensures p.Constructed() && p.Shape() == [p.B.shape[0], p.A.shape[1]] && p.Shape()[1..] == [p.A.shape[1]]
    ensures |p.A.data| == p.Rank() * p.A.shape[1] && |p.B.data| == p.B.shape[0] * p.Rank()
    ensures p.A.shape == [p.Rank(), p.A.shape[1]] && p.B.shape == [p.B.shape[0], p.Rank()]
  {
    var r, c, rows := p.Rank(), p.A.shape[1], p.B.shape[0];
    NoDimensions();
    RavelAppend([], [], r, 0);
    RavelAppend([], [], rows, 0);
    RavelAppend([] + [r], [] + [0], c, 0);
    RavelAppend([] + [rows], [] + [0], r, 0);
    assert p.A.shape == ([] + [r]) + [c] && p.B.shape == ([] + [rows]) + [r];
    hide Prod, Ravel;
  }

  lemma EvenHeadsOk(p: Lora, h: nat)
    requires p.Valid() && |p.A.shape| == 2 && h > 0 && (EvenHeads(p.B.shape[0], h) || p.Rank() == 0)
    ensures p.Constructed() && PermuteHeadsPair(p, h).Ok?
  {
    MatrixShape(p);
    var rows, r, c := p.B.shape[0], p.Rank(), p.A.shape[1];
    var m := HalfHead(rows, h);
    var wide := Split(h, 2, m, [c]);
    HalfHeads(rows, h);
    MatrixReshape(p, h, m);
    MatrixChain(p, h, m, r, c, rows);
    hide *;
    var q := ReshapeTo(p, wide).value;
    PairStepsBack(p, h, wide, q, TransposePair(q, 1, 2).value);
  }

  lemma MatrixChain(p: Lora, h: nat, m: nat, r: nat, c: nat, rows: nat)
    requires |p.A.data| == r * c && |p.B.data| == Rows(h, 2, m) * r == rows * r
    ensures var q := Lora(Reshape(p.A, [1, 1, r, c]), Reshape(p.B, Split(h, 2, m, [r])));
            && q.Constructed() && |q.A.shape| == 4 && TransposePair(q, 1, 2).Ok?
                && TransposePair(q, 1, 2).value.Constructed()
            && ReshapeTo(TransposePair(q, 1, 2).value, [rows, c]).Ok?
  {
    var q := Lora(Reshape(p.A, [1, 1, r, c]), Reshape(p.B, Split(h, 2, m, [r])));
    MatrixTransposed(q, h, m, r, c);
    SplitProd(h, m, 2, [r]);
    RavelAppend([], [], r, 0);
    NoDimensions();
    assert [] + [r] == [r];
    RowsSwap(h, 2, m);
    PermuteShape(q.B, Swap12(4));
    hide Prod, Ravel, Rows, Split, TransposePair, Permute, IsPermutation, Swap12, ReshapeTo;
    BackReshape(TransposePair(q, 1, 2).value, h, m, r, c, rows);
  }

  lemma OkEvenHeads(p: Lora, h: nat)
    requires p.Valid() && |p.A.shape| == 2 && h > 0 && PermuteHeadsPair(p, h).Ok?
    ensures EvenHeads(p.B.shape[0], h) || p.Rank() == 0
  {
    MatrixShape(p);
    PairSteps(p, h);
    var m := HalfHead(p.B.shape[0], h);
    HalfHeads(p.B.shape[0], h);
    MatrixReshape(p, h, m);
    hide *;
  }

  lemma PairStepsBack(p: Lora, h: nat, wide: seq<nat>, q: Lora, s: Lora)
    requires p.Constructed() && |p.Shape()| >= 2 && h > 0
    requires wide == Split(h, 2, HalfHead(p.Shape()[0], h), p.Shape()[1..]) && ReshapeTo(p, wide) == Ok(q)
    requires q.Constructed() && |q.A.shape| >= 3 && TransposePair(q, 1, 2) == Ok(s)
    requires s.Constructed() && ReshapeTo(s, p.Shape()).Ok?
    ensures PermuteHeadsPair(p, h).Ok?
  {
    hide ReshapeTo, TransposePair, Split, HalfHead;
  }

  lemma MatrixReshape(p: Lora, h: nat, m: nat)
    requires p.Valid() && |p.A.shape| == 2
    ensures var (wide, r, c) := (Split(h, 2, m, [p.A.shape[1]]), p.Rank(), p.A.shape[1]);
            && (ReshapeTo(p, wide).Ok? <==> r == 0 || p.B.shape[0] == Rows(h, 2, m))
            && (ReshapeTo(p, wide).Ok? ==>
                  ReshapeTo(p, wide).value == Lora(Reshape(p.A, [1, 1, r, c]), Reshape(p.B, Split(h, 2, m, [r]))))
  {
    MatrixShape(p);
    var r, c := p.Rank(), p.A.shape[1];
    SplitProd(h, 2, m, [r]);
    SplitProd(1, 1, r, [c]);
    OneProd(r);
    OneProd(c);
    assert Rows(1, 1, r) == r && Split(1, 1, r, [c]) == [1, 1, r, c];
    hide Prod, Rows, Lora.Valid, Lora.Shape;
    ReshapeFour(p, h, m, r, c);
    if r > 0 && p.B.shape[0] * r == Rows(h, 2, m) * r { CancelFactor(p.B.shape[0], Rows(h, 2, m), r); }
  }

  lemma OneProd(r: nat)
    ensures Prod([r]) == r
  {
    NoDimensions();
    RavelAppend([], [], r, 0);
    assert [] + [r] == [r];
  }

  lemma ReshapeFour(p: Lora, h: nat, m: nat, r: nat, c: nat)
    requires p.Constructed() && p.A.shape == [r, c] && |p.B.shape| == 2 && p.Rank() == r
    ensures ReshapeTo(p, Split(h, 2, m, [c])) ==
            if Prod([1, 1, r, c]) != |p.A.data| || Prod(Split(h, 2, m, [r])) != |p.B.data| then Err(ShapeMismatch)
            else Ok(Lora(Reshape(p.A, [1, 1, r, c]), Reshape(p.B, Split(h, 2, m, [r]))))
  {
    hide Prod;
    assert Split(h, 2, m, [c])[..3] + [r] == Split(h, 2, m, [r]) && Ones(2) + [r, c] == [1, 1, r, c];
  }

  lemma MatrixTransposed(q: Lora, h: nat, m: nat, r: nat, c: nat)
    requires q.A.shape == [1, 1, r, c] && q.B.shape == Split(h, 2, m, [r])
    ensures q.Constructed() && TransposePair(q, 1, 2).Ok?
    ensures IsPermutation(Swap12(4)) && TransposePair(q, 1, 2).value == Lora(q.A, Permute(q.B, Swap12(4)))
    ensures TransposePair(q, 1, 2).value.B.shape == Split(h, m, 2, [r])
  {
    Swap12Permutes(4);
    Swap12Shape(h, 2, m, [r]);
    ExchangedValid(4);
    assert q.SharedLead();
    ExchangedPair(q);
    hide IsPermutation, Permute, Split, Swap12, TransposePair;
    PermuteShape(q.B, Swap12(4));
  }

  lemma ExchangedValid(n: nat)
    requires n >= 4
    ensures var dims := Normalise(Exchanged(n, 1, 2), n);
            dims != [] && ValidDims(dims, n) && dims[n - 1] == -1 && Positive(dims, n) == Swap12(n)
  {
    Swap12Permutes(n);
    ExchangedSwap12(n);
    hide IsPermutation;
  }

  lemma ExchangedPair(q: Lora)
    requires q.Constructed() && |q.A.shape| >= 4 && q.SharedLead()
    ensures var n := |q.A.shape|;
            && IsPermutation(Swap12(n)) && TransposePair(q, 1, 2) == Ok(Lora(q.A, Permute(q.B, Swap12(n))))
  {
    ExchangedValid(|q.A.shape|);
    Swap12Permutes(|q.A.shape|);
    hide IsPermutation, Permute, Swap12, Exchanged, Normalise, Positive, ValidDims, Lora.SharedLead;
  }

  lemma BackReshape(s: Lora, h: nat, m: nat, r: nat, c: nat, rows: nat)
    requires s.A.shape == [1, 1, r, c] && s.B.shape == Split(h, m, 2, [r])
    requires |s.A.data| == r * c && |s.B.data| == rows * r
    ensures s.Constructed() && ReshapeTo(s, [rows, c]).Ok?
  {
    assert Ones(0) + [r, c] == [r] + [c] && [rows, c][..1] + [r] == [rows] + [r];
    RavelFront(r, [c], 0, [c]);
    RavelFront(rows, [r], 0, [r]);
    RavelAppend([], [], r, 0);
    RavelAppend([], [], c, 0);
    NoDimensions();
    assert [] + [r] == [r] && [] + [c] == [c];
    hide Prod, Ravel, Rows;
  }
}
