/** torch.cat and torch.stack along dimension 0, on tensors and on LoraTorchTensor pairs. */
module LoraCat {
  import opened Bits
  import opened Tensors
  import opened LoraTensor
  import opened LoraGetItem

  // ----- the first dimension

  lemma {:induction false} RavelFront(a: nat, s: seq<nat>, i: nat, idx: seq<nat>)
    requires |idx| == |s|
    ensures Prod([a] + s) == a * Prod(s)
    ensures Ravel([a] + s, [i] + idx) == i * Prod(s) + Ravel(s, idx)
  {
    hide Prod, Ravel;
    if s == [] {
      assert [a] + s == [] + [a] && [i] + idx == [] + [i];
      NoDimensions();
      RavelAppend([], [], a, i);
    } else {
      var n := |s|;
      var (t, d, u, k) := (s[..n - 1], s[n - 1], idx[..n - 1], idx[n - 1]);
      assert s == t + [d] && idx == u + [k];
      assert [a] + s == ([a] + t) + [d] && [i] + idx == ([i] + u) + [k];
      RavelFront(a, t, i, u);
      RavelAppend([a] + t, [i] + u, d, k);
      RavelAppend(t, u, d, k);
      FrontArithmetic(a, Prod(t), Prod([a] + t), d, i, Ravel(t, u), Ravel([a] + t, [i] + u), k);
    }
  }

  lemma NoDimensions()
    ensures Prod([]) == 1 && Ravel([], []) == 0
  {
  }

  lemma FrontArithmetic(a: nat, p: nat, ap: nat, d: nat, i: nat, r: nat, ir: nat, k: nat)
    requires ap == a * p && ir == i * p + r
    ensures ap * d == a * (p * d)
    ensures ir * d + k == i * (p * d) + (r * d + k)
  {
  }

  /** The same, for a shape and an index taken apart. */
  lemma RavelSplit(s: seq<nat>, idx: seq<nat>)
    requires s != [] && |idx| == |s|
    ensures Prod(s) == s[0] * Prod(s[1..])
    ensures Ravel(s, idx) == idx[0] * Prod(s[1..]) + Ravel(s[1..], idx[1..])
  {
    assert s == [s[0]] + s[1..] && idx == [idx[0]] + idx[1..];
    RavelFront(s[0], s[1..], idx[0], idx[1..]);
  }

  // ----- cat of two tensors

  predicate Joinable(t: Tensor, u: Tensor) {
    t.shape != [] && u.shape != [] && t.shape[1..] == u.shape[1..]
  }

  function Cat2(t: Tensor, u: Tensor): Tensor
    requires Joinable(t, u)
  {
    Tensor([t.shape[0] + u.shape[0]] + t.shape[1..], t.data + u.data)
  }

  /** The index in the second part. */
  function Shifted(idx: seq<nat>, d: nat): (r: seq<nat>)
    requires idx != [] && idx[0] >= d
    ensures |r| == |idx|
  {
    [idx[0] - d] + idx[1..]
  }

  lemma InRangeTail(s: seq<nat>, idx: seq<nat>)
    requires InRange(s, idx) && s != []
    ensures idx != [] && idx[0] < s[0] && InRange(s[1..], idx[1..])
  {
  }

  lemma InRangeFront(a: nat, s: seq<nat>, i: nat, idx: seq<nat>)
    requires i < a && InRange(s, idx)
    ensures InRange([a] + s, [i] + idx)
  {
  }

  lemma Cat2Valid(t: Tensor, u: Tensor)
    requires t.Valid() && u.Valid() && Joinable(t, u)
    ensures Cat2(t, u).Valid()
  {
    RavelSplit(t.shape, t.shape);
    RavelSplit(u.shape, u.shape);
    var s := t.shape[1..];
    RavelFront(t.shape[0] + u.shape[0], s, 0, s);
    hide Prod, Ravel;
    Distribute(t.shape[0] + u.shape[0], u.shape[0], Prod(s));
  }

  /** Where row `i` below `n` starts, and that its entries lie below `n` rows. */
  lemma RowInside(i: nat, n: nat, p: nat, r: nat)
    requires i < n && r < p
    ensures i * p + r < n * p
  {
    MulMono(i + 1, n, p);
    assert (i + 1) * p == i * p + p;
  }

  lemma DataAt(t: Tensor, idx: seq<nat>)
    requires t.Valid() && InRange(t.shape, idx)
    ensures Ravel(t.shape, idx) < |t.data| && t.At(idx) == t.data[Ravel(t.shape, idx)]
  {
    RavelInRange(t.shape, idx);
    hide Ravel, InRange;
  }

  lemma Cat2Low(t: Tensor, u: Tensor, idx: seq<nat>)
    requires t.Valid() && u.Valid() && Joinable(t, u) && InRange(Cat2(t, u).shape, idx) && idx[0] < t.shape[0]
    ensures InRange(t.shape, idx) && Cat2(t, u).At(idx) == t.At(idx)
  {
    var c := Cat2(t, u);
    Cat2Valid(t, u);
    RavelSplit(c.shape, idx);
    RavelSplit(t.shape, idx);
    assert c.shape[1..] == t.shape[1..];
    InRangeTail(c.shape, idx);
    assert InRange(t.shape, idx);
    hide Ravel, Prod, InRange, Tensor.Valid, Tensor.At;
    DataAt(c, idx);
    DataAt(t, idx);
  }

  lemma Cat2High(t: Tensor, u: Tensor, idx: seq<nat>)
    requires t.Valid() && u.Valid() && Joinable(t, u) && InRange(Cat2(t, u).shape, idx) && idx[0] >= t.shape[0]
    ensures InRange(u.shape, Shifted(idx, t.shape[0])) && Cat2(t, u).At(idx) == u.At(Shifted(idx, t.shape[0]))
  {
    var c, j := Cat2(t, u), Shifted(idx, t.shape[0]);
    Cat2Valid(t, u);
    RavelSplit(c.shape, idx);
    RavelSplit(u.shape, j);
    RavelSplit(t.shape, t.shape);
    var s := t.shape[1..];
    assert c.shape[1..] == s == u.shape[1..] && j[1..] == idx[1..];
    InRangeTail(c.shape, idx);
    assert InRange(u.shape, j);
    assert |t.data| == t.shape[0] * Prod(s);
    hide Ravel, Prod, InRange, Tensor.Valid, Tensor.At;
    DataAt(c, idx);
    DataAt(u, j);
    Distribute(idx[0], t.shape[0], Prod(s));
  }

  lemma Distribute(i: nat, d: nat, p: nat)
    requires i >= d
    ensures i * p == d * p + (i - d) * p
  {
  }

  // ----- cat of two pairs

  /** A and B have the same size in the first of more than two dimensions. */
  ghost predicate SharesFirst(p: Lora) {
    p.Constructed() && |p.A.shape| > 2 && p.A.shape[0] == p.B.shape[0]
  }

  ghost predicate JoinablePairs(p: Lora, r: Lora) {
    p.Valid() && r.Valid() && Joinable(p.A, r.A) && Joinable(p.B, r.B)
  }

  function CatLora(p: Lora, r: Lora): Lora
    requires Joinable(p.A, r.A) && Joinable(p.B, r.B)
  {
    Lora(Cat2(p.A, r.A), Cat2(p.B, r.B))
  }

  lemma TailAt(s: seq<nat>, t: seq<nat>, a: nat, i: nat)
    requires s != [] && t != [] && s[1..] == t[1..] && 1 <= i < |s|
    ensures |t| == |s| && t[i] == s[i] == ([a] + s[1..])[i]
  {
    assert s[1..][i - 1] == t[1..][i - 1];
  }

  lemma CatConstructed(p: Lora, r: Lora)
    requires JoinablePairs(p, r) && SharesFirst(p) && SharesFirst(r)
    ensures var q := CatLora(p, r);
            SharesFirst(q) && |q.A.shape| == |p.A.shape| && q.Rank() == p.Rank() == r.Rank()
  {
    var n := |p.A.shape|;
    TailAt(p.A.shape, r.A.shape, p.A.shape[0] + r.A.shape[0], n - 2);
    TailAt(p.B.shape, r.B.shape, p.B.shape[0] + r.B.shape[0], n - 1);
    hide Tensor.Valid;
  }

  lemma CatLoraValid(p: Lora, r: Lora)
    requires JoinablePairs(p, r) && SharesFirst(p) && SharesFirst(r)
    ensures CatLora(p, r).Valid() && SharesFirst(CatLora(p, r)) && CatLora(p, r).Rank() == p.Rank() == r.Rank()
  {
    CatConstructed(p, r);
    Cat2Valid(p.A, r.A);
    Cat2Valid(p.B, r.B);
    var q, n := CatLora(p, r), |p.A.shape|;
    forall i | 0 <= i < n - 2 ensures q.A.shape[i] == 1 || q.A.shape[i] == q.B.shape[i] {
      if i > 0 {
        TailAt(p.A.shape, r.A.shape, p.A.shape[0] + r.A.shape[0], i);
        TailAt(p.B.shape, r.B.shape, p.B.shape[0] + r.B.shape[0], i);
      }
    }
    hide Tensor.Valid, Cat2, Joinable;
  }

  lemma ShapeTail(p: Lora)
    requires p.Constructed() && |p.A.shape| > 2
    ensures p.Shape()[0] == p.B.shape[0]
    ensures p.Shape()[1..] == p.B.shape[1..][..|p.B.shape| - 2] + [p.A.shape[1..][|p.A.shape| - 2]]
  {
  }

  lemma CatProductShape(p: Lora, r: Lora)
    requires JoinablePairs(p, r) && SharesFirst(p) && SharesFirst(r)
    ensures SharesFirst(CatLora(p, r)) && Joinable(p.Product(), r.Product())
    ensures CatLora(p, r).Shape() == Cat2(p.Product(), r.Product()).shape
  {
    CatConstructed(p, r);
    ProductShape(p);
    ProductShape(r);
    var q := CatLora(p, r);
    ShapeTail(p);
    ShapeTail(r);
    ShapeTail(q);
    assert q.A.shape[1..] == p.A.shape[1..] && q.B.shape[1..] == p.B.shape[1..];
    hide Lora.Valid, Lora.Product, Lora.Shape;
    assert q.Shape() == [q.Shape()[0]] + q.Shape()[1..];
  }

  /** Indices of the factors, and that A reads its own first index. */
  lemma FirstIndex(p: Lora, idx: seq<nat>, k: nat)
    requires p.Valid() && SharesFirst(p) && InRange(p.Shape(), idx) && k < p.Rank()
    ensures InRange(p.B.shape, p.BIndex(idx, k)) && InRange(p.A.shape, p.AIndex(idx, k))
    ensures p.BIndex(idx, k)[0] == idx[0] == p.AIndex(idx, k)[0]
  {
    hide Tensor.Valid;
    var n := |idx|;
    forall i | 0 <= i < n ensures p.BIndex(idx, k)[i] < p.B.shape[i] && p.AIndex(idx, k)[i] < p.A.shape[i] {
      assert idx[i] < p.Shape()[i];
    }
  }

  /** The factors' indices in the joined pair are those of the part, with the first index shifted. */
  lemma SameRest(p: Lora, q: Lora, idx: seq<nat>, jdx: seq<nat>, k: nat)
    requires SharesFirst(p) && SharesFirst(q) && p.A.shape[1..] == q.A.shape[1..]
    requires |idx| == |jdx| == |p.A.shape| && idx[1..] == jdx[1..]
    requires jdx[0] < q.A.shape[0] && idx[0] < p.A.shape[0]
    ensures p.BIndex(idx, k)[1..] == q.BIndex(jdx, k)[1..] && p.AIndex(idx, k)[1..] == q.AIndex(jdx, k)[1..]
    ensures p.BIndex(idx, k) == [idx[0]] + p.BIndex(idx, k)[1..] && p.AIndex(idx, k) == [idx[0]] + p.AIndex(idx, k)[1..]
    ensures q.BIndex(jdx, k) == [jdx[0]] + q.BIndex(jdx, k)[1..] && q.AIndex(jdx, k) == [jdx[0]] + q.AIndex(jdx, k)[1..]
  {
    var n := |idx|;
    forall i | 1 <= i < n ensures p.A.shape[i] == q.A.shape[i] && idx[i] == jdx[i] {
      assert p.A.shape[1..][i - 1] == q.A.shape[1..][i - 1] && idx[1..][i - 1] == jdx[1..][i - 1];
    }
    forall i | 1 <= i < n ensures p.BIndex(idx, k)[i] == q.BIndex(jdx, k)[i]
        && p.AIndex(idx, k)[i] == q.AIndex(jdx, k)[i] {
    }
  }

  /** A term below the join is the first pair's. */
  lemma LowTerm(p: Lora, r: Lora, idx: seq<nat>, k: nat)
    requires JoinablePairs(p, r) && SharesFirst(p) && SharesFirst(r) && SharesFirst(CatLora(p, r))
    requires InRange(CatLora(p, r).Shape(), idx) && InRange(p.Shape(), idx) && k < p.Rank()
    ensures |CatLora(p, r).A.shape| == |idx| && CatLora(p, r).Term(idx, k) == p.Term(idx, k)
  {
    LowIndices(p, r, idx, k);
    var q := CatLora(p, r);
    CatLoraValid(p, r);
    hide InRange, Tensor.At, Tensor.Valid, Cat2, Lora.Valid, Lora.BIndex, Lora.AIndex, SharesFirst, Joinable;
    Cat2Low(p.A, r.A, q.AIndex(idx, k));
    Cat2Low(p.B, r.B, q.BIndex(idx, k));
  }

  lemma LowIndices(p: Lora, r: Lora, idx: seq<nat>, k: nat)
    requires JoinablePairs(p, r) && SharesFirst(p) && SharesFirst(r) && SharesFirst(CatLora(p, r))
    requires InRange(CatLora(p, r).Shape(), idx) && InRange(p.Shape(), idx) && k < p.Rank()
    ensures |CatLora(p, r).A.shape| == |idx| == |p.A.shape| && p.A.shape != [] && p.B.shape != []
    ensures var q := CatLora(p, r);
            && InRange(q.A.shape, q.AIndex(idx, k)) && InRange(q.B.shape, q.BIndex(idx, k))
            && q.AIndex(idx, k)[0] < p.A.shape[0] && q.BIndex(idx, k)[0] < p.B.shape[0]
            && q.AIndex(idx, k) == p.AIndex(idx, k) && q.BIndex(idx, k) == p.BIndex(idx, k)
  {
    var q := CatLora(p, r);
    CatLoraValid(p, r);
    FirstIndex(q, idx, k);
    FirstIndex(p, idx, k);
    assert idx[0] < p.A.shape[0] && |q.A.shape| == |idx| == |p.A.shape| && idx[0] < q.A.shape[0];
    assert p.A.shape[1..] == q.A.shape[1..];
    SameRest(p, q, idx, idx, k);
    hide InRange, Tensor.Valid, Lora.Valid, Lora.BIndex, Lora.AIndex;
  }

  /** A term beyond it is the second pair's, at the shifted index. */
  lemma HighTerm(p: Lora, r: Lora, idx: seq<nat>, k: nat)
    requires JoinablePairs(p, r) && SharesFirst(p) && SharesFirst(r) && SharesFirst(CatLora(p, r))
    requires InRange(CatLora(p, r).Shape(), idx) && |p.B.shape| > 0 && idx != [] && idx[0] >= p.B.shape[0]
    requires InRange(r.Shape(), Shifted(idx, p.B.shape[0])) && k < r.Rank()
    ensures |CatLora(p, r).A.shape| == |idx|
    ensures CatLora(p, r).Term(idx, k) == r.Term(Shifted(idx, p.B.shape[0]), k)
  {
    HighIndices(p, r, idx, k);
    var q := CatLora(p, r);
    CatLoraValid(p, r);
    hide InRange, Tensor.At, Tensor.Valid, Cat2, Lora.Valid, Lora.BIndex, Lora.AIndex, Shifted, SharesFirst, Joinable;
    Cat2High(p.A, r.A, q.AIndex(idx, k));
    Cat2High(p.B, r.B, q.BIndex(idx, k));
  }

  lemma HighIndices(p: Lora, r: Lora, idx: seq<nat>, k: nat)
    requires JoinablePairs(p, r) && SharesFirst(p) && SharesFirst(r) && SharesFirst(CatLora(p, r))
    requires InRange(CatLora(p, r).Shape(), idx) && |p.B.shape| > 0 && idx != [] && idx[0] >= p.B.shape[0]
    requires InRange(r.Shape(), Shifted(idx, p.B.shape[0])) && k < r.Rank()
    ensures |CatLora(p, r).A.shape| == |idx| == |r.A.shape| && p.A.shape != [] && p.A.shape[0] == p.B.shape[0]
    ensures var (q, jdx) := (CatLora(p, r), Shifted(idx, p.B.shape[0]));
            && InRange(q.A.shape, q.AIndex(idx, k)) && InRange(q.B.shape, q.BIndex(idx, k))
            && q.AIndex(idx, k)[0] >= p.A.shape[0] && q.BIndex(idx, k)[0] >= p.B.shape[0]
            && Shifted(q.AIndex(idx, k), p.A.shape[0]) == r.AIndex(jdx, k)
            && Shifted(q.BIndex(idx, k), p.B.shape[0]) == r.BIndex(jdx, k)
  {
    var q, jdx := CatLora(p, r), Shifted(idx, p.B.shape[0]);
    CatLoraValid(p, r);
    FirstIndex(q, idx, k);
    FirstIndex(r, jdx, k);
    assert idx[0] < q.A.shape[0] && jdx[0] < r.A.shape[0] && |q.A.shape| == |idx| == |r.A.shape|;
    assert r.A.shape[1..] == q.A.shape[1..] && idx[1..] == jdx[1..];
    SameRest(r, q, jdx, idx, k);
    hide InRange, Tensor.Valid, Lora.Valid, Lora.BIndex, Lora.AIndex;
  }

  /** Joining two pairs that share their first sizes joins their products. */
  lemma CatLoraProduct(p: Lora, r: Lora)
    requires JoinablePairs(p, r) && SharesFirst(p) && SharesFirst(r)
    ensures CatLora(p, r).Valid() && SharesFirst(CatLora(p, r))
    ensures Joinable(p.Product(), r.Product()) && CatLora(p, r).Product() == Cat2(p.Product(), r.Product())
  {
    var q := CatLora(p, r);
    CatLoraValid(p, r);
    CatProductShape(p, r);
    ProductShape(p);
    ProductShape(r);
    ProductShape(q);
    assert p.Shape()[0] == p.B.shape[0];
    hide InRange, Tensor.At, Lora.Product, Lora.Valid, Lora.Term, Cat2, Tensor.Valid, Lora.Shape, Joinable;
    var c := Cat2(p.Product(), r.Product());
    Cat2Valid(p.Product(), r.Product());
    forall idx | InRange(q.Shape(), idx) ensures q.Product().At(idx) == c.At(idx) {
      CatAt(p, r, idx);
    }
    Extensional(q.Product(), c);
  }

  lemma CatAt(p: Lora, r: Lora, idx: seq<nat>)
    requires JoinablePairs(p, r) && SharesFirst(p) && SharesFirst(r) && SharesFirst(CatLora(p, r))
    requires Joinable(p.Product(), r.Product()) && InRange(CatLora(p, r).Shape(), idx)
    ensures CatLora(p, r).Product().At(idx) == Cat2(p.Product(), r.Product()).At(idx)
  {
    var q := CatLora(p, r);
    CatLoraValid(p, r);
    CatProductShape(p, r);
    ProductShape(p);
    ProductShape(r);
    assert p.Shape()[0] == p.B.shape[0] && |idx| == |q.Shape()| > 0;
    hide InRange, Tensor.At, Lora.Product, Lora.Valid, Lora.Term, Cat2, Tensor.Valid, Lora.Shape, Joinable, CatLora;
    if idx[0] < p.B.shape[0] {
      Cat2Low(p.Product(), r.Product(), idx);
      forall k | 0 <= k < p.Rank() ensures q.Term(idx, k) == p.Term(idx, k) { LowTerm(p, r, idx, k); }
      SameProductAt(q, idx, p, idx);
    } else {
      Cat2High(p.Product(), r.Product(), idx);
      var jdx := Shifted(idx, p.B.shape[0]);
      forall k | 0 <= k < r.Rank() ensures q.Term(idx, k) == r.Term(jdx, k) { HighTerm(p, r, idx, k); }
      SameProductAt(q, idx, r, jdx);
    }
  }

  // ----- two matrices with the same A

  ghost predicate SameA(p: Lora, r: Lora) {
    p.Valid() && r.Valid() && |p.A.shape| == 2 && p.A == r.A
  }

  lemma SameAJoinable(p: Lora, r: Lora)
    requires SameA(p, r)
    ensures Joinable(p.B, r.B) && Joinable(p.Product(), r.Product())
    ensures var q := Lora(p.A, Cat2(p.B, r.B));
            q.Valid() && q.Shape() == Cat2(p.Product(), r.Product()).shape && q.Rank() == p.Rank() == r.Rank()
  {
    ProductShape(p);
    ProductShape(r);
    assert p.B.shape[1..] == [p.Rank()] == r.B.shape[1..];
    Cat2Valid(p.B, r.B);
    hide Lora.Product, Tensor.Valid;
    assert p.Shape() == [p.B.shape[0], p.A.shape[1]] && r.Shape() == [r.B.shape[0], p.A.shape[1]];
    assert p.Shape()[1..] == [p.A.shape[1]] == r.Shape()[1..];
  }

  lemma MatrixIndex(p: Lora, idx: seq<nat>, k: nat)
    requires p.Constructed() && |p.A.shape| == 2 && InRange(p.Shape(), idx) && k < p.Rank()
    ensures idx == [idx[0], idx[1]] && p.BIndex(idx, k) == [idx[0], k] && p.AIndex(idx, k) == [k, idx[1]]
    ensures InRange(p.B.shape, [idx[0], k])
  {
    assert idx[0] < p.Shape()[0] == p.B.shape[0];
  }

  lemma SameATerm(p: Lora, r: Lora, idx: seq<nat>, k: nat)
    requires SameA(p, r) && Joinable(p.B, r.B) && Lora(p.A, Cat2(p.B, r.B)).Valid()
    requires InRange(Lora(p.A, Cat2(p.B, r.B)).Shape(), idx) && k < p.Rank() == r.Rank() == Cat2(p.B, r.B).shape[1]
    ensures idx[0] < p.B.shape[0] ==>
              InRange(p.Shape(), idx) && Lora(p.A, Cat2(p.B, r.B)).Term(idx, k) == p.Term(idx, k)
    ensures idx[0] >= p.B.shape[0] ==>
              InRange(r.Shape(), Shifted(idx, p.B.shape[0])) &&
              Lora(p.A, Cat2(p.B, r.B)).Term(idx, k) == r.Term(Shifted(idx, p.B.shape[0]), k)
  {
    var q := Lora(p.A, Cat2(p.B, r.B));
    MatrixIndex(q, idx, k);
    assert idx[1] < q.Shape()[1] == p.A.shape[1] && idx[0] < q.Shape()[0];
    hide Tensor.At, Tensor.Valid;
    if idx[0] < p.B.shape[0] {
      MatrixIndex(p, idx, k);
      hide Cat2, Lora.Valid;
      Cat2Low(p.B, r.B, [idx[0], k]);
    } else {
      var jdx := Shifted(idx, p.B.shape[0]);
      assert jdx == [idx[0] - p.B.shape[0], idx[1]];
      assert InRange(r.Shape(), jdx);
      MatrixIndex(r, jdx, k);
      hide Cat2, Lora.Valid;
      Cat2High(p.B, r.B, [idx[0], k]);
      assert Shifted([idx[0], k], p.B.shape[0]) == [jdx[0], k];
    }
  }

  lemma SameAInRange(p: Lora, r: Lora, idx: seq<nat>)
    requires SameA(p, r) && Joinable(p.B, r.B) && Lora(p.A, Cat2(p.B, r.B)).Constructed()
    requires InRange(Lora(p.A, Cat2(p.B, r.B)).Shape(), idx)
    ensures |idx| == 2
    ensures idx[0] < p.B.shape[0] ==> InRange(p.Shape(), idx)
    ensures idx[0] >= p.B.shape[0] ==> InRange(r.Shape(), Shifted(idx, p.B.shape[0]))
  {
    var s := Lora(p.A, Cat2(p.B, r.B)).Shape();
    assert s == [p.B.shape[0] + r.B.shape[0], p.A.shape[1]] && idx[0] < s[0] && idx[1] < s[1];
    assert p.Shape() == [p.B.shape[0], p.A.shape[1]] && r.Shape() == [r.B.shape[0], p.A.shape[1]];
    hide Tensor.Valid;
  }

  /** Matrices that share A are joined by joining B. */
  lemma SameAProduct(p: Lora, r: Lora)
    requires SameA(p, r)
    ensures Joinable(p.B, r.B) && Joinable(p.Product(), r.Product())
    ensures Lora(p.A, Cat2(p.B, r.B)).Valid()
    ensures Lora(p.A, Cat2(p.B, r.B)).Product() == Cat2(p.Product(), r.Product())
  {
    SameAJoinable(p, r);
    var q := Lora(p.A, Cat2(p.B, r.B));
    ProductShape(p);
    ProductShape(r);
    ProductShape(q);
    assert q.Constructed();
    assert p.Shape()[0] == p.B.shape[0];
    hide InRange, Tensor.At, Lora.Product, Lora.Valid, Lora.Term, Cat2, Tensor.Valid, Lora.Shape, Joinable;
    var c := Cat2(p.Product(), r.Product());
    Cat2Valid(p.Product(), r.Product());
    forall idx | InRange(q.Shape(), idx) ensures q.Product().At(idx) == c.At(idx) {
      SameAAt(p, r, idx);
    }
    Extensional(q.Product(), c);
  }

  lemma SameAAt(p: Lora, r: Lora, idx: seq<nat>)
    requires SameA(p, r) && Joinable(p.B, r.B) && Joinable(p.Product(), r.Product())
    requires Lora(p.A, Cat2(p.B, r.B)).Constructed() && InRange(Lora(p.A, Cat2(p.B, r.B)).Shape(), idx)
    ensures Lora(p.A, Cat2(p.B, r.B)).Product().At(idx) == Cat2(p.Product(), r.Product()).At(idx)
  {
    var q := Lora(p.A, Cat2(p.B, r.B));
    SameAJoinable(p, r);
    ProductShape(p);
    ProductShape(r);
    SameAInRange(p, r, idx);
    assert p.Shape()[0] == p.B.shape[0];
    assert q.Rank() == q.B.shape[1];
    hide InRange, Tensor.At, Lora.Product, Lora.Valid, Lora.Term, Cat2, Tensor.Valid, Lora.Shape, Joinable;
    if idx[0] < p.B.shape[0] {
      Cat2Low(p.Product(), r.Product(), idx);
      forall k | 0 <= k < p.Rank() ensures q.Term(idx, k) == p.Term(idx, k) { SameATerm(p, r, idx, k); }
      SameProductAt(q, idx, p, idx);
    } else {
      Cat2High(p.Product(), r.Product(), idx);
      var jdx := Shifted(idx, p.B.shape[0]);
      forall k | 0 <= k < r.Rank() ensures q.Term(idx, k) == r.Term(jdx, k) { SameATerm(p, r, idx, k); }
      SameProductAt(q, idx, r, jdx);
    }
  }

  // ----- cat of any number of tensors and pairs

  /** Empty one-dimensional tensors, which torch passes over, are not treated apart. */
  function Cat(ts: seq<Tensor>): Result<Tensor> {
    if ts == [] then Err(ShapeMismatch)
    else
      var last := ts[|ts| - 1];
      if |ts| == 1 then (if last.shape == [] then Err(ShapeMismatch) else Ok(last))
      else
        match Cat(ts[..|ts| - 1])
        case Ok(t) => if Joinable(t, last) then Ok(Cat2(t, last)) else Err(ShapeMismatch)
        case Err(e) => Err(e)
  }

  function As(ps: seq<Lora>): (r: seq<Tensor>)
    ensures |r| == |ps|
  {
    seq(|ps|, i requires 0 <= i < |ps| => ps[i].A)
  }

  function Bs(ps: seq<Lora>): (r: seq<Tensor>)
    ensures |r| == |ps|
  {
    seq(|ps|, i requires 0 <= i < |ps| => ps[i].B)
  }

  function Products(ps: seq<Lora>): (r: seq<Tensor>)
    requires forall p :: p in ps ==> p.Constructed()
    ensures |r| == |ps|
  {
    seq(|ps|, i requires 0 <= i < |ps| => ps[i].Product())
  }

  function CatPairs(ps: seq<Lora>): Result<Lora> {
    if ps == [] then Err(IndexOutOfRange)
    else if |ps[0].A.shape| > 2 then Paired(Cat(As(ps)), Cat(Bs(ps)))
    else if forall i :: 1 <= i < |ps| ==> ps[i].A == ps[0].A then Paired(Ok(ps[0].A), Cat(Bs(ps)))
    else Err(NotImplemented)
  }

  lemma CatSnoc(ts: seq<Tensor>, u: Tensor)
    requires ts != [] && Cat(ts + [u]).Ok?
    ensures Cat(ts).Ok? && Joinable(Cat(ts).value, u) && Cat(ts + [u]) == Ok(Cat2(Cat(ts).value, u))
  {
    hide Cat2, Joinable;
    assert (ts + [u])[..|ts|] == ts;
  }

  lemma CatSnocBack(ts: seq<Tensor>, u: Tensor)
    requires ts != [] && Cat(ts).Ok? && Joinable(Cat(ts).value, u)
    ensures Cat(ts + [u]) == Ok(Cat2(Cat(ts).value, u))
  {
    hide Cat2, Joinable;
    assert (ts + [u])[..|ts|] == ts;
  }

  lemma CatOne(t: Tensor)
    ensures Cat([t]) == if t.shape == [] then Err(ShapeMismatch) else Ok(t)
  {
    hide Cat2, Joinable;
  }

  ghost predicate AllValid(ps: seq<Lora>) {
    forall p :: p in ps ==> p.Valid()
  }

  lemma SnocParts(ps: seq<Lora>, p: Lora)
    requires AllValid(ps + [p])
    ensures As(ps + [p]) == As(ps) + [p.A] && Bs(ps + [p]) == Bs(ps) + [p.B]
    ensures AllValid(ps) && p.Valid() && (forall q :: q in ps + [p] ==> q.Constructed())
    ensures Products(ps + [p]) == Products(ps) + [p.Product()]
  {
    hide Lora.Product, Tensor.Valid;
    assert p in ps + [p];
    forall q | q in ps ensures q.Valid() { assert q in ps + [p]; }
  }

  lemma FirstAll(ps: seq<Lora>, p: Lora)
    requires forall q :: q in ps + [p] ==> SharesFirst(q)
    ensures SharesFirst(p) && forall q :: q in ps ==> SharesFirst(q)
  {
    hide SharesFirst;
    assert p in ps + [p];
    forall q | q in ps ensures SharesFirst(q) { assert q in ps + [p]; }
  }

  lemma {:induction false} CatFold(ps: seq<Lora>)
    requires ps != [] && AllValid(ps) && (forall p :: p in ps ==> p.Constructed())
             && (forall p :: p in ps ==> SharesFirst(p))
    requires Cat(As(ps)).Ok? && Cat(Bs(ps)).Ok?
    ensures var q := Lora(Cat(As(ps)).value, Cat(Bs(ps)).value);
            q.Valid() && SharesFirst(q) && Cat(Products(ps)) == Ok(q.Product())
  {
    var n := |ps|;
    var us, p := ps[..n - 1], ps[n - 1];
    assert ps == us + [p];
    SnocParts(us, p);
    FirstAll(us, p);
    if n == 1 {
      assert us == [];
      CatSingle(p);
    } else {
      forall q | q in us ensures q.Constructed() { assert q in ps; }
      hide *;
      CatSnoc(As(us), p.A);
      CatSnoc(Bs(us), p.B);
      CatFold(us);
      CatFoldStep(us, p, Lora(Cat(As(us)).value, Cat(Bs(us)).value));
    }
  }

  lemma CatSingle(p: Lora)
    requires p.Valid() && SharesFirst(p)
    ensures As([]) + [p.A] == [p.A] && Bs([]) + [p.B] == [p.B] && Products([]) + [p.Product()] == [p.Product()]
    ensures Cat([p.A]) == Ok(p.A) && Cat([p.B]) == Ok(p.B) && Cat([p.Product()]) == Ok(p.Product())
  {
    CatOne(p.A);
    CatOne(p.B);
    CatOne(p.Product());
    ProductShape(p);
    hide Lora.Product, Tensor.Valid, Cat;
  }

  lemma CatFoldStep(us: seq<Lora>, p: Lora, q: Lora)
    requires us != [] && (forall r :: r in us ==> r.Constructed()) && q.Valid() && p.Valid() && SharesFirst(q)
             && SharesFirst(p)
    requires Cat(Products(us)) == Ok(q.Product()) && Joinable(q.A, p.A) && Joinable(q.B, p.B)
    ensures Lora(Cat2(q.A, p.A), Cat2(q.B, p.B)).Valid() && SharesFirst(Lora(Cat2(q.A, p.A), Cat2(q.B, p.B)))
    ensures Cat(Products(us) + [p.Product()]) == Ok(Lora(Cat2(q.A, p.A), Cat2(q.B, p.B)).Product())
  {
    assert p.Constructed() && q.Constructed();
    hide Lora.Product, Lora.Valid, SharesFirst, Cat, Cat2, Joinable, Products;
    CatLoraProduct(q, p);
    CatSnocBack(Products(us), p.Product());
  }

  /**
   * torch.cat on pairs of more than two dimensions joins the products, if every pair's A and B share the first size.
   */
  lemma CatCommutes(ps: seq<Lora>)
    requires AllValid(ps) && CatPairs(ps).Ok? && |ps[0].A.shape| > 2 && (forall p :: p in ps ==> p.Constructed())
    requires forall p :: p in ps ==> SharesFirst(p)
    ensures CatPairs(ps).value.Valid() && Cat(Products(ps)) == Ok(CatPairs(ps).value.Product())
  {
    hide Cat, As, Bs, Lora.Product, Products, Lora.Valid;
    CatFold(ps);
  }

  lemma {:induction false} RowsFold(ps: seq<Lora>, a: Tensor)
    requires ps != [] && AllValid(ps) && (forall p :: p in ps ==> p.Constructed()) && (forall p :: p in ps ==> p.A == a)
    requires |a.shape| == 2 && Cat(Bs(ps)).Ok?
    ensures Lora(a, Cat(Bs(ps)).value).Valid() && Cat(Products(ps)) == Ok(Lora(a, Cat(Bs(ps)).value).Product())
  {
    var n := |ps|;
    var us, p := ps[..n - 1], ps[n - 1];
    assert ps == us + [p];
    SnocParts(us, p);
    assert p in ps;
    if n == 1 {
      assert us == [];
      RowsSingle(p);
    } else {
      forall q | q in us ensures q.Constructed() && q.A == a { assert q in ps; }
      hide *;
      CatSnoc(Bs(us), p.B);
      RowsFold(us, a);
      RowsFoldStep(us, p, Lora(a, Cat(Bs(us)).value));
    }
  }

  lemma RowsSingle(p: Lora)
    requires p.Valid() && |p.A.shape| == 2
    ensures Bs([]) + [p.B] == [p.B] && Products([]) + [p.Product()] == [p.Product()]
    ensures Cat([p.B]) == Ok(p.B) && Cat([p.Product()]) == Ok(p.Product())
  {
    CatOne(p.B);
    CatOne(p.Product());
    ProductShape(p);
    hide Lora.Product, Tensor.Valid, Cat;
  }

  lemma RowsFoldStep(us: seq<Lora>, p: Lora, q: Lora)
    requires us != [] && (forall r :: r in us ==> r.Constructed()) && q.Valid() && p.Valid()
    requires |q.A.shape| == 2 && p.A == q.A && Cat(Products(us)) == Ok(q.Product()) && Joinable(q.B, p.B)
    ensures Lora(q.A, Cat2(q.B, p.B)).Valid()
    ensures Cat(Products(us) + [p.Product()]) == Ok(Lora(q.A, Cat2(q.B, p.B)).Product())
  {
    assert p.Constructed() && q.Constructed() && SameA(q, p);
    hide Lora.Product, Lora.Valid, Cat, Cat2, Joinable, Products;
    SameAProduct(q, p);
    CatSnocBack(Products(us), p.Product());
  }

  /** torch.cat on matrices, whenever it returns: all share A, and the rows of the products are joined. */
  lemma CatRowsCommutes(ps: seq<Lora>)
    requires AllValid(ps) && CatPairs(ps).Ok? && |ps[0].A.shape| == 2 && (forall p :: p in ps ==> p.Constructed())
    ensures CatPairs(ps).value.Valid() && Cat(Products(ps)) == Ok(CatPairs(ps).value.Product())
  {
    assert ps[0] in ps;
    hide Cat, As, Bs, Lora.Product, Products, Lora.Valid;
    RowsFold(ps, ps[0].A);
  }

  // ----- the shared first size is needed

  function Firsts(ts: seq<Tensor>): nat
    requires forall t :: t in ts ==> t.shape != []
  {
    if ts == [] then 0 else Firsts(ts[..|ts| - 1]) + ts[|ts| - 1].shape[0]
  }

  ghost predicate AllJoined(ts: seq<Tensor>) {
    forall t :: t in ts ==> t.Valid() && t.shape != []
  }

  /** What is joined: the first sizes are added up, the others shared. */
  lemma {:induction false} CatWhole(ts: seq<Tensor>)
    requires Cat(ts).Ok? && AllJoined(ts)
    ensures ts != [] && (forall t :: t in ts ==> t.shape != []) && ts[0].shape != []
    ensures Cat(ts).value.Valid() && Cat(ts).value.shape == [Firsts(ts)] + ts[0].shape[1..]
  {
    var n := |ts|;
    assert n > 0;
    var us, t := ts[..n - 1], ts[n - 1];
    assert ts == us + [t];
    hide *;
    JoinedInit(us, t);
    if n == 1 {
      assert us == [] && ts == [t];
      OneFirst(t);
      CatOne(t);
    } else {
      CatSnoc(us, t);
      CatWhole(us);
      assert us[0] == ts[0];
      Cat2Valid(Cat(us).value, t);
      FirstsAppend(us, t);
      Cat2Shape(Cat(us).value, t);
      FrontOf(Firsts(us), us[0].shape[1..]);
    }
  }

  lemma FrontOf<T>(x: T, s: seq<T>)
    ensures ([x] + s)[0] == x && ([x] + s)[1..] == s
  {
  }

  lemma JoinedInit(us: seq<Tensor>, t: Tensor)
    requires AllJoined(us + [t])
    ensures AllJoined(us) && t.Valid() && t.shape != [] && forall u :: u in us + [t] ==> u.shape != []
  {
    hide Tensor.Valid;
    assert t in us + [t];
    forall u | u in us ensures u.Valid() && u.shape != [] { assert u in us + [t]; }
  }

  lemma OneFirst(t: Tensor)
    requires t.shape != []
    ensures (forall u :: u in [t] ==> u.shape != []) && Firsts([t]) == t.shape[0]
            && t.shape == [t.shape[0]] + t.shape[1..]
  {
  }

  lemma Cat2Shape(t: Tensor, u: Tensor)
    requires Joinable(t, u)
    ensures Cat2(t, u).shape == [t.shape[0] + u.shape[0]] + t.shape[1..]
  {
  }

  /** Pairs of more than two dimensions. */
  ghost predicate Deep(ps: seq<Lora>) {
    forall p :: p in ps ==> p.Valid() && |p.A.shape| > 2
  }

  ghost predicate NonEmptyFirst(ps: seq<Lora>) {
    forall p :: p in ps ==> |p.B.shape| > 0 && p.B.shape[0] >= 1
  }

  /** A's first sizes add up to at least the number of pairs, and to B's only if each is B's. */
  lemma {:induction false} FirstsCompare(ps: seq<Lora>)
    requires Deep(ps) && NonEmptyFirst(ps)
    requires (forall t :: t in As(ps) ==> t.shape != []) && (forall t :: t in Bs(ps) ==> t.shape != [])
    ensures Firsts(Bs(ps)) >= Firsts(As(ps))
    ensures Firsts(As(ps)) >= |ps|
    ensures Firsts(As(ps)) == Firsts(Bs(ps)) ==> forall p :: p in ps ==> SharesFirst(p)
  {
    if ps != [] {
      var n := |ps|;
      var us, p := ps[..n - 1], ps[n - 1];
      assert ps == us + [p] && p in ps;
      forall q | q in us ensures q in ps { }
      FirstSizes(p);
      PartsAppend(us, p);
      hide Lora.Valid, As, Bs, SharesFirst, Firsts;
      FirstsAppend(As(us), p.A);
      FirstsAppend(Bs(us), p.B);
      FirstsCompare(us);
    }
  }

  lemma PartsAppend(ps: seq<Lora>, p: Lora)
    ensures As(ps + [p]) == As(ps) + [p.A] && Bs(ps + [p]) == Bs(ps) + [p.B]
  {
  }

  lemma FirstsAppend(ts: seq<Tensor>, t: Tensor)
    requires forall u :: u in ts + [t] ==> u.shape != []
    ensures (forall u :: u in ts ==> u.shape != []) && t.shape != []
    ensures Firsts(ts + [t]) == Firsts(ts) + t.shape[0]
  {
    assert t in ts + [t] && (ts + [t])[..|ts|] == ts;
    forall u | u in ts ensures u.shape != [] { assert u in ts + [t]; }
  }

  lemma FirstSizes(p: Lora)
    requires p.Valid() && |p.A.shape| > 2 && p.B.shape[0] >= 1
    ensures p.Constructed() && 1 <= p.A.shape[0] <= p.B.shape[0]
    ensures SharesFirst(p) <==> p.A.shape[0] == p.B.shape[0]
  {
    assert p.A.shape[0] == 1 || p.A.shape[0] == p.B.shape[0];
  }

  lemma DeepParts(ps: seq<Lora>)
    requires Deep(ps)
    ensures AllValid(ps) && AllJoined(As(ps)) && AllJoined(Bs(ps))
    ensures (forall p :: p in ps ==> p.Constructed())
    ensures (forall t :: t in As(ps) ==> t.shape != []) && (forall t :: t in Bs(ps) ==> t.shape != [])
  {
    hide Tensor.Valid;
  }

  lemma ValidJoin(p: Lora, q: Lora, a: nat, b: nat)
    requires p.Valid() && |p.A.shape| > 2 && q.Constructed() && q.A.Valid() && q.B.Valid()
    requires q.A.shape == [a] + p.A.shape[1..] && q.B.shape == [b] + p.B.shape[1..]
    ensures q.Valid() <==> a == 1 || a == b
  {
    hide Tensor.Valid;
    assert q.A.shape[0] == a && q.B.shape[0] == b;
    if a == 1 || a == b {
      forall i | 0 <= i < |q.A.shape| - 2 ensures q.A.shape[i] == 1 || q.A.shape[i] == q.B.shape[i] {
        if i > 0 { assert q.A.shape[i] == p.A.shape[i] && q.B.shape[i] == p.B.shape[i]; }
      }
    }
  }

  lemma CatPairsAre(ps: seq<Lora>)
    requires Deep(ps) && CatPairs(ps).Ok?
    ensures ps != [] && ps[0].Valid() && |ps[0].A.shape| > 2
    ensures Cat(As(ps)).Ok? && Cat(Bs(ps)).Ok? && CatPairs(ps).value == Lora(Cat(As(ps)).value, Cat(Bs(ps)).value)
    ensures CatPairs(ps).value.Constructed() && As(ps)[0] == ps[0].A && Bs(ps)[0] == ps[0].B
  {
    hide Cat, Lora.Valid;
    assert ps[0] in ps;
  }

  /** The joined parts fit together if A's first sizes add up to 1, or to what B's do. */
  lemma CatFits(ps: seq<Lora>)
    requires Deep(ps) && CatPairs(ps).Ok?
    ensures (forall t :: t in As(ps) ==> t.shape != []) && (forall t :: t in Bs(ps) ==> t.shape != [])
    ensures CatPairs(ps).value.Valid() <==> Firsts(As(ps)) == 1 || Firsts(As(ps)) == Firsts(Bs(ps))
  {
    hide *;
    DeepParts(ps);
    CatPairsAre(ps);
    CatWhole(As(ps));
    CatWhole(Bs(ps));
    ValidJoin(ps[0], CatPairs(ps).value, Firsts(As(ps)), Firsts(Bs(ps)));
  }

  /**
   * Joining two or more pairs of more than two dimensions: if every pair's A and B share the first size the result
   * stands for the joined products, and unless some B is empty it stands for nothing otherwise.
   */
  lemma CatExactly(ps: seq<Lora>)
    requires |ps| >= 2 && Deep(ps) && CatPairs(ps).Ok?
    ensures forall p :: p in ps ==> p.Constructed()
    ensures (forall p :: p in ps ==> SharesFirst(p)) ==>
              CatPairs(ps).value.Valid() && Cat(Products(ps)) == Ok(CatPairs(ps).value.Product())
    ensures NonEmptyFirst(ps) ==> (CatPairs(ps).value.Valid() <==> forall p :: p in ps ==> SharesFirst(p))
  {
    hide Cat, As, Bs, Lora.Product, Products, Lora.Valid, Firsts, SharesFirst, CatPairs, Deep, NonEmptyFirst;
    DeepParts(ps);
    CatPairsAre(ps);
    CatFits(ps);
    if NonEmptyFirst(ps) { FirstsCompare(ps); }
    if forall p :: p in ps ==> SharesFirst(p) { CatCommutes(ps); }
  }

  /** Two pairs whose B has two matrices and whose A has one: joined, B has four and A two. */
  lemma CatFails()
    ensures var p := Lora(Blank([1, 1, 1]), Blank([2, 1, 1]));
            p.Valid() && CatPairs([p, p]).Ok? && !CatPairs([p, p]).value.Valid()
  {
    BlankPair([1, 1, 1], [2, 1, 1]);
    var p := Lora(Blank([1, 1, 1]), Blank([2, 1, 1]));
    hide Blank, Lora.Valid;
    TwoJoin(p, p);
    assert !SharesFirst(p) && p in [p, p];
    CatExactly([p, p]);
  }

  lemma TwoJoin(p: Lora, r: Lora)
    requires p.Valid() && r.Valid() && |p.A.shape| > 2 && Joinable(p.A, r.A) && Joinable(p.B, r.B)
    ensures CatPairs([p, r]) == Ok(Lora(Cat2(p.A, r.A), Cat2(p.B, r.B)))
  {
    hide Cat, Tensor.Valid;
    assert As([p, r]) == [p.A] + [r.A] && Bs([p, r]) == [p.B] + [r.B];
    CatOne(p.A);
    CatOne(p.B);
    CatSnocBack([p.A], r.A);
    CatSnocBack([p.B], r.B);
  }

  /** With an empty B in the first pair the parts can fit by accident: the second A is used for the second row only. */
  lemma CatMisplaces()
    ensures var (p, r) := (Misplaced(), Lora(Tensor([1, 1, 1], [1.0]), Tensor([2, 1, 1], [1.0, 1.0])));
            && p.Valid() && r.Valid() && CatPairs([p, r]).Ok? && CatPairs([p, r]).value.Valid()
            && p.Constructed() && r.Constructed() && Cat([p.Product(), r.Product()]).Ok?
            && Cat([p.Product(), r.Product()]) != Ok(CatPairs([p, r]).value.Product())
  {
    var p, r := Misplaced(), Lora(Tensor([1, 1, 1], [1.0]), Tensor([2, 1, 1], [1.0, 1.0]));
    SmallProds();
    TwoJoin(p, r);
    var q := CatPairs([p, r]).value;
    assert q == Lora(Tensor([2, 1, 1], [0.0, 1.0]), Tensor([2, 1, 1], [1.0, 1.0]));
    assert q.Valid();
    ProductShape(p);
    ProductShape(r);
    assert p.Shape() == [0, 1, 1] && r.Shape() == [2, 1, 1] == q.Shape();
    hide Prod, Lora.Product, Cat, Tensor.Valid, Lora.Valid;
    CatOne(p.Product());
    CatSnocBack([p.Product()], r.Product());
    assert [p.Product()] + [r.Product()] == [p.Product(), r.Product()];
    FirstEntry(q, 0.0);
    FirstEntry(r, 1.0);
    var j := Cat2(p.Product(), r.Product());
    assert j.shape == [2, 1, 1];
    Cat2High(p.Product(), r.Product(), [0, 0, 0]);
  }

  function Misplaced(): Lora {
    Lora(Tensor([1, 1, 1], [0.0]), Tensor([0, 1, 1], []))
  }

  lemma SmallProds()
    ensures Prod([1, 1, 1]) == 1 && Prod([2, 1, 1]) == 2 && Prod([0, 1, 1]) == 0
  {
    hide Prod;
    ProdThree(1);
    ProdThree(2);
    ProdThree(0);
  }

  lemma ProdThree(a: nat)
    ensures Prod([a, 1, 1]) == a
  {
    hide Prod;
    RavelFront(a, [1, 1], 0, [0, 0]);
    ProdOnes(2);
    assert Ones(2) == [1, 1] && [a] + [1, 1] == [a, 1, 1];
  }

  /** The first entry of a product of rank 1 whose B begins with 1 is A's first. */
  lemma FirstEntry(p: Lora, x: real)
    requires p.Constructed() && p.Shape() == [2, 1, 1] && p.B.shape == [2, 1, 1] && p.B.data == [1.0, 1.0]
    requires (p.A.shape == [1, 1, 1] || p.A.shape == [2, 1, 1]) && |p.A.data| > 0 && p.A.data[0] == x
    ensures p.Product().At([0, 0, 0]) == x
  {
    var z := [0, 0, 0];
    ProductAt(p, z);
    assert p.AIndex(z, 0) == z && p.BIndex(z, 0) == z;
    OriginFirst(p.A);
    OriginFirst(p.B);
    hide Lora.Product;
    assert p.Terms(z, 1) == p.Terms(z, 0) + p.Term(z, 0);
  }

  lemma OriginFirst(t: Tensor)
    requires (t.shape == [1, 1, 1] || t.shape == [2, 1, 1]) && |t.data| > 0
    ensures t.At([0, 0, 0]) == t.data[0]
  {
    RavelSplit(t.shape, [0, 0, 0]);
    RavelSplit(t.shape[1..], [0, 0]);
    RavelSplit(t.shape[1..][1..], [0]);
    hide Ravel, Prod;
  }

  // ----- stack

  function Unsqueezed(t: Tensor): Tensor {
    Tensor([1] + t.shape, t.data)
  }

  function Unsqueezeds(ts: seq<Tensor>): (r: seq<Tensor>)
    ensures |r| == |ts|
  {
    seq(|ts|, i requires 0 <= i < |ts| => Unsqueezed(ts[i]))
  }

  /** A new first dimension runs over tensors of one shape. */
  function Stack(ts: seq<Tensor>): Result<Tensor> {
    if forall t :: t in ts ==> t.shape == ts[0].shape then Cat(Unsqueezeds(ts)) else Err(ShapeMismatch)
  }

  function StackPairs(ps: seq<Lora>): Result<Lora> {
    Paired(Stack(As(ps)), Stack(Bs(ps)))
  }

  lemma UnsqueezedAt(t: Tensor, idx: seq<nat>)
    requires |idx| == |t.shape|
    ensures Unsqueezed(t).At([0] + idx) == t.At(idx)
  {
    RavelFront(1, t.shape, 0, idx);
    var s, i := [1] + t.shape, [0] + idx;
    if InRange(t.shape, idx) { InRangeFront(1, t.shape, 0, idx); }
    if InRange(s, i) {
      InRangeTail(s, i);
      assert s[1..] == t.shape && i[1..] == idx;
    }
    hide Ravel, InRange;
  }

  lemma UnsqueezedValid(t: Tensor)
    requires t.Valid()
    ensures Unsqueezed(t).Valid()
  {
    RavelFront(1, t.shape, 0, t.shape);
  }

  function UnsqueezedPair(p: Lora): Lora {
    Lora(Unsqueezed(p.A), Unsqueezed(p.B))
  }

  lemma UnsqueezedPairValid(p: Lora)
    requires p.Valid()
    ensures var q := UnsqueezedPair(p);
            q.Valid() && SharesFirst(q) && q.Shape() == [1] + p.Shape() && q.Rank() == p.Rank()
  {
    UnsqueezedValid(p.A);
    UnsqueezedValid(p.B);
    hide Tensor.Valid;
    var q := UnsqueezedPair(p);
    forall i | 0 <= i < |q.A.shape| - 2 ensures q.A.shape[i] == 1 || q.A.shape[i] == q.B.shape[i] {
      if i > 0 { assert q.A.shape[i] == p.A.shape[i - 1] && q.B.shape[i] == p.B.shape[i - 1]; }
    }
  }

  lemma UnsqueezedTerm(p: Lora, idx: seq<nat>, k: nat)
    requires p.Constructed() && UnsqueezedPair(p).Constructed() && |idx| == |p.A.shape|
    ensures UnsqueezedPair(p).Term([0] + idx, k) == p.Term(idx, k)
  {
    hide Tensor.At;
    UnsqueezedIndices(p, idx, k);
    UnsqueezedAt(p.A, p.AIndex(idx, k));
    UnsqueezedAt(p.B, p.BIndex(idx, k));
    hide Lora.AIndex, Lora.BIndex, Lora.Constructed, Unsqueezed;
  }

  lemma UnsqueezedIndices(p: Lora, idx: seq<nat>, k: nat)
    requires p.Constructed() && UnsqueezedPair(p).Constructed() && |idx| == |p.A.shape|
    ensures UnsqueezedPair(p).BIndex([0] + idx, k) == [0] + p.BIndex(idx, k)
    ensures UnsqueezedPair(p).AIndex([0] + idx, k) == [0] + p.AIndex(idx, k)
  {
    var q, i := UnsqueezedPair(p), [0] + idx;
    forall e | 1 <= e < |i| - 2 ensures q.A.shape[e] == p.A.shape[e - 1] && i[e] == idx[e - 1] {
    }
  }

  lemma UnsqueezedProduct(p: Lora)
    requires p.Valid()
    ensures UnsqueezedPair(p).Valid() && SharesFirst(UnsqueezedPair(p))
    ensures UnsqueezedPair(p).Product() == Unsqueezed(p.Product())
  {
    var q := UnsqueezedPair(p);
    UnsqueezedPairValid(p);
    ProductShape(p);
    ProductShape(q);
    UnsqueezedValid(p.Product());
    hide InRange, Tensor.At, Lora.Product, Lora.Valid, Lora.Term, Tensor.Valid, Lora.Shape, UnsqueezedPair;
    forall i | InRange(q.Shape(), i) ensures q.Product().At(i) == Unsqueezed(p.Product()).At(i) {
      UnsqueezedProductAt(p, i);
    }
    Extensional(q.Product(), Unsqueezed(p.Product()));
  }

  lemma UnsqueezedProductAt(p: Lora, i: seq<nat>)
    requires p.Valid() && UnsqueezedPair(p).Constructed() && InRange(UnsqueezedPair(p).Shape(), i)
    ensures UnsqueezedPair(p).Product().At(i) == Unsqueezed(p.Product()).At(i)
  {
    var q := UnsqueezedPair(p);
    UnsqueezedPairValid(p);
    ProductShape(p);
    InRangeTail(q.Shape(), i);
    var idx := i[1..];
    assert i == [0] + idx && q.Shape()[1..] == p.Shape() && q.Rank() == p.Rank();
    hide InRange, Tensor.At, Lora.Product, Lora.Valid, Lora.Term, Tensor.Valid, Lora.Shape;
    forall k | 0 <= k < p.Rank() ensures q.Term(i, k) == p.Term(idx, k) { UnsqueezedTerm(p, idx, k); }
    SameProductAt(q, i, p, idx);
    UnsqueezedAt(p.Product(), idx);
  }

  function UnsqueezedPairs(ps: seq<Lora>): (r: seq<Lora>)
    ensures |r| == |ps|
  {
    seq(|ps|, i requires 0 <= i < |ps| => UnsqueezedPair(ps[i]))
  }

  lemma UnsqueezedParts(ps: seq<Lora>)
    requires AllValid(ps) && forall p :: p in ps ==> p.Constructed()
    ensures As(UnsqueezedPairs(ps)) == Unsqueezeds(As(ps)) && Bs(UnsqueezedPairs(ps)) == Unsqueezeds(Bs(ps))
    ensures AllValid(UnsqueezedPairs(ps)) && forall q :: q in UnsqueezedPairs(ps) ==> q.Constructed() && SharesFirst(q)
    ensures Products(UnsqueezedPairs(ps)) == Unsqueezeds(Products(ps))
  {
    hide Lora.Product, Lora.Valid, Unsqueezed, SharesFirst;
    var qs := UnsqueezedPairs(ps);
    forall i | 0 <= i < |ps| ensures qs[i].Valid() && SharesFirst(qs[i]) && qs[i].Constructed()
                                     && qs[i].Product() == Unsqueezed(ps[i].Product()) {
      assert ps[i] in ps;
      UnsqueezedProduct(ps[i]);
      ValidConstructed(qs[i]);
    }
    forall q | q in qs ensures q.Valid() && SharesFirst(q) && q.Constructed() {
      var i :| 0 <= i < |qs| && qs[i] == q;
    }
  }

  lemma ValidConstructed(p: Lora)
    requires p.Valid()
    ensures p.Constructed()
  {
  }

  lemma SameShapes(ps: seq<Lora>)
    requires (forall p :: p in ps ==> p.Constructed())
    requires (forall t :: t in As(ps) ==> t.shape == As(ps)[0].shape)
             && (forall t :: t in Bs(ps) ==> t.shape == Bs(ps)[0].shape)
    ensures forall t :: t in Products(ps) ==> t.shape == Products(ps)[0].shape
  {
    forall t | t in Products(ps) ensures t.shape == Products(ps)[0].shape {
      var i :| 0 <= i < |ps| && Products(ps)[i] == t;
      assert As(ps)[i] in As(ps) && Bs(ps)[i] in Bs(ps);
      assert ps[i] in ps && ps[0] in ps;
      hide *;
      SameProductShape(ps[i], ps[0]);
    }
  }

  lemma SameProductShape(p: Lora, q: Lora)
    requires p.Constructed() && q.Constructed() && p.A.shape == q.A.shape && p.B.shape == q.B.shape
    ensures p.Product().shape == q.Product().shape
  {
    hide Lora.Product;
    ProductShape(p);
    ProductShape(q);
  }

  /** torch.stack on pairs, whenever it returns, stacks the products. */
  lemma StackCommutes(ps: seq<Lora>)
    requires AllValid(ps) && (forall p :: p in ps ==> p.Constructed()) && StackPairs(ps).Ok?
    ensures StackPairs(ps).value.Valid() && Stack(Products(ps)) == Ok(StackPairs(ps).value.Product())
  {
    assert As(ps) == [] ==> Cat(Unsqueezeds(As(ps))) == Err(ShapeMismatch);
    SameShapes(ps);
    UnsqueezedParts(ps);
    hide Cat, As, Bs, Products, AllValid, Unsqueezeds, UnsqueezedPairs, Lora.Product, Lora.Valid, SharesFirst;
    CatFold(UnsqueezedPairs(ps));
  }
}
