/** When the operations of LoraTorchTensor return a pair; what it stands for is proved where each is defined. */
module LoraReturns {
  import opened Bits
  import opened Tensors
  import opened LoraTensor
  import opened LoraIndexing
  import opened LoraGetItem
  import opened LoraCat

  // ----- permute

  /** permute returns if it leaves the last axis of a pair whose A is shared, or exchanges the two of a matrix. */
  lemma PermuteReturns(p: Lora, dims: seq<int>, d: seq<nat>)
    requires p.Constructed() && ValidDims(Normalise(dims, |p.A.shape|), |p.A.shape|)
    requires d == Positive(Normalise(dims, |p.A.shape|), |p.A.shape|)
    ensures PermutePair(p, dims).Ok? <==> (LastFixed(d) && p.SharedLead()) || d == [1, 0]
  {
    hide IsPermutation, Permute, Lora.SharedLead;
    var n := |p.A.shape|;
    var nd := Normalise(dims, n);
    assert d[n - 1] == nd[n - 1] + n;
    if n == 2 {
      assert d[0] == nd[0] + 2;
      if nd[1] == -2 && nd[0] == -1 { assert d == [1, 0]; }
      if d == [1, 0] { assert nd[1] == -2 && nd[0] == -1; }
    }
  }

  // ----- reshape

  lemma SharedLeadProd(p: Lora)
    requires p.Constructed()
    ensures Prod(p.A.shape[..|p.A.shape| - 2]) == 1 <==> p.SharedLead()
  {
    var lead := p.A.shape[..|p.A.shape| - 2];
    if p.SharedLead() {
      assert lead == Ones(|lead|);
      ProdOnes(|lead|);
    }
    if Prod(lead) == 1 { ProdOne(lead); }
    hide Prod;
  }

  lemma SameFactor(lead: nat, m: nat)
    ensures lead * m == m <==> m == 0 || lead == 1
  {
    if m > 0 && lead * m == m { CancelFactor(lead, 1, m); }
  }

  lemma PartsData(p: Lora)
    requires p.Valid()
    ensures var (n, r, c) := (|p.A.shape|, p.Rank(), p.A.shape[|p.A.shape| - 1]);
            && |p.B.shape| == n && |p.A.data| == Prod(p.A.shape[..n - 2]) * (r * c)
            && |p.B.data| == Prod(p.B.shape[..n - 1]) * r
  {
    ProdSplit(p.A.shape);
    var n := |p.A.shape|;
    assert p.B.shape == p.B.shape[..n - 1] + [p.Rank()];
    ProdAppend(p.B.shape[..n - 1], p.Rank());
    hide Prod;
    Regroup(Prod(p.A.shape[..n - 2]), p.Rank(), p.A.shape[n - 1]);
  }

  lemma Regroup(a: nat, b: nat, c: nat)
    ensures a * b * c == a * (b * c)
  {
  }

  /**
   * reshape returns if the row size stays and, unless the rank is 0, the rows are as many as before and A is shared or
   * its rows are empty.
   */
  lemma ReshapeReturns(p: Lora, shape: seq<nat>)
    requires p.Valid() && |shape| >= 2
    ensures var (n, m, c) := (|shape|, |p.B.shape|, p.A.shape[|p.A.shape| - 1]);
            ReshapeTo(p, shape).Ok? <==>
            shape[n - 1] == c &&
            (p.Rank() == 0 || (Prod(shape[..n - 1]) == Prod(p.B.shape[..m - 1]) && (c == 0 || p.SharedLead())))
  {
    PartsData(p);
    SharedLeadProd(p);
    var n, m, r, c := |shape|, |p.B.shape|, p.Rank(), p.A.shape[|p.A.shape| - 1];
    assert Ones(n - 2) + [r, c] == (Ones(n - 2) + [r]) + [c];
    hide Prod, Lora.SharedLead, Lora.Valid;
    LeadOnes(n - 2, r, c);
    ProdAppend(shape[..n - 1], r);
    SameFactor(Prod(p.A.shape[..m - 2]), r * c);
    ZeroProduct(r, c);
    SameRowsFactor(Prod(shape[..n - 1]), Prod(p.B.shape[..m - 1]), r);
  }

  lemma ZeroProduct(r: nat, c: nat)
    ensures r * c == 0 <==> r == 0 || c == 0
  {
    if r > 0 && c > 0 { MulMono(1, r, c); }
  }

  lemma SameRowsFactor(a: nat, b: nat, r: nat)
    ensures a * r == b * r <==> r == 0 || a == b
  {
    if r > 0 && a * r == b * r { CancelFactor(a, b, r); }
  }

  /** A requested shape with one dimension to be filled in. */
  function WithMissing(a: seq<int>, b: seq<int>): seq<int> {
    (a + [-1]) + b
  }

  lemma {:induction false} KnownProduct(a: seq<nat>, b: seq<nat>)
    ensures ProdInt(WithMissing(a, b)) == Prod(a + b)
  {
    var s := WithMissing(a, b);
    if b == [] {
      assert a + [] == a && s[..|s| - 1] == a;
      GivenProduct(a);
    } else {
      var n := |b|;
      assert s[..|s| - 1] == WithMissing(a, b[..n - 1]) && (a + b)[..|a| + n - 1] == a + b[..n - 1];
      KnownProduct(a, b[..n - 1]);
    }
  }

  lemma {:induction false} GivenProduct(a: seq<nat>)
    ensures ProdInt(a) == Prod(a)
  {
    if a != [] { GivenProduct(a[..|a| - 1]); }
  }

  lemma {:induction false} ProdInserted(a: seq<nat>, q: nat, b: seq<nat>)
    ensures Prod((a + [q]) + b) == Prod(a + b) * q
  {
    if b == [] {
      assert (a + [q]) + [] == a + [q] && a + [] == a;
      ProdAppend(a, q);
    } else {
      var n := |b|;
      var x := b[n - 1];
      assert (a + [q]) + b == ((a + [q]) + b[..n - 1]) + [x] && a + b == (a + b[..n - 1]) + [x];
      hide *;
      ProdInserted(a, q, b[..n - 1]);
      ProdAppend((a + [q]) + b[..n - 1], x);
      ProdAppend(a + b[..n - 1], x);
      Exchange(Prod(a + b[..n - 1]), q, x);
    }
  }

  lemma Exchange(p: nat, q: nat, x: nat)
    ensures p * q * x == p * x * q
  {
  }

  /** One -1 is filled in exactly if the dimensions given divide the elements, and then none are lost. */
  lemma ExpandReturns(a: seq<nat>, b: seq<nat>, elements: nat)
    ensures var (shape, known) := (WithMissing(a, b), Prod(a + b));
            && (ExpandShape(shape, elements).Ok? <==> known > 0 && elements % known == 0)
            && (known > 0 && elements % known == 0 ==>
                  ExpandShape(shape, elements) == Ok((a + [elements / known]) + b) &&
                  Prod((a + [elements / known]) + b) == elements)
  {
    KnownProduct(a, b);
    hide Prod, ProdInt;
    var shape, known := WithMissing(a, b), Prod(a + b);
    assert shape[|a|] == -1;
    if known > 0 && elements % known == 0 {
      var q := elements / known;
      assert AsNats(shape, q) == (a + [q]) + b;
      ProdInserted(a, q, b);
      Divided(elements, known);
    }
  }

  lemma Divided(n: nat, d: nat)
    requires d > 0 && n % d == 0
    ensures d * (n / d) == n
  {
  }

  // ----- a tuple

  /** A tuple with sliced rows and columns returns if every item fits its dimension. */
  lemma GetItemsReturns(p: Lora, li: seq<Item>, row: Item, col: Item)
    requires p.Valid() && |li| == |p.A.shape| - 2 && row.Slice? && col.Slice?
    ensures GetItems(p, (li + [row]) + [col]).Ok? <==>
            Wrappable(li, p.A.shape[..|li|]) && Resolved(li, p.B.shape[..|li|]) &&
            Resolve(row, p.B.shape[|li|]).Ok? && Resolve(col, p.A.shape[|li| + 1]).Ok?
  {
    PartsAlike(p);
    hide *;
    if GetItems(p, (li + [row]) + [col]).Ok? { GetItemsResolved(p, li, row, col); }
    if Wrappable(li, p.A.shape[..|li|]) && Resolved(li, p.B.shape[..|li|]) &&
       Resolve(row, p.B.shape[|li|]).Ok? && Resolve(col, p.A.shape[|li| + 1]).Ok? {
      GetItemsSucceeds(p, li, row, col);
    }
  }

  // ----- a single item

  /** Above two dimensions an item has to fit the first dimension of both parts; on a matrix it has to be a slice. */
  lemma GetOneReturns(p: Lora, item: Item)
    requires p.Valid()
    ensures |p.A.shape| > 2 ==>
              (GetOne(p, item).Ok? <==> Resolve(item, p.A.shape[0]).Ok? && Resolve(item, p.B.shape[0]).Ok?)
    ensures |p.A.shape| == 2 ==> (GetOne(p, item).Ok? <==> item.Slice? && Resolve(item, p.B.shape[0]).Ok?)
  {
    hide Resolve, GetOne;
    if |p.A.shape| > 2 { DeepReturns(p, item); } else { MatrixReturns(p, item); }
  }

  lemma DeepReturns(p: Lora, item: Item)
    requires p.Valid() && |p.A.shape| > 2
    ensures GetOne(p, item).Ok? <==> Resolve(item, p.A.shape[0]).Ok? && Resolve(item, p.B.shape[0]).Ok?
  {
    var n := |p.A.shape|;
    PartsAlike(p);
    GetOneIs(p, item);
    PaddedHead(item, n);
    hide *;
    var items := [item] + Fulls(n - 1);
    HeadAndFulls(item, p.A.shape);
    HeadAndFulls(item, p.B.shape);
    IndexResolved(p.A, items);
    IndexResolved(p.B, items);
    if Resolve(item, p.A.shape[0]).Ok? && Resolve(item, p.B.shape[0]).Ok? {
      HeadIndexShape(p.A, item);
      HeadIndexShape(p.B, item);
      SameKind(item, p.A.shape[0], p.B.shape[0]);
      HeadsConstruct(p, Index(p.A, items), Index(p.B, items), HeadOf(item, p.A.shape[0]), HeadOf(item, p.B.shape[0]));
    } else {
      PairedFails(Index(p.A, items), Index(p.B, items));
    }
  }

  /** The dimension a single item leaves. */
  function HeadOf(item: Item, n: nat): seq<nat>
    requires Resolve(item, n).Ok?
  {
    var s := Resolve(item, n).value;
    if s.Span? then [s.count] else []
  }

  lemma PartsAlike(p: Lora)
    requires p.Valid()
    ensures p.Constructed() && |p.A.shape| == |p.B.shape| >= 2
  {
  }

  lemma SameKind(item: Item, a: nat, b: nat)
    requires Resolve(item, a).Ok? && Resolve(item, b).Ok?
    ensures |HeadOf(item, a)| == |HeadOf(item, b)| <= 1
    ensures HeadOf(item, a) == (if Resolve(item, a).value.Span? then [Resolve(item, a).value.count] else [])
    ensures HeadOf(item, b) == (if Resolve(item, b).value.Span? then [Resolve(item, b).value.count] else [])
  {
    PlaceKind(item, a);
    PlaceKind(item, b);
    hide Resolve;
  }

  lemma HeadsConstruct(p: Lora, a: Result<Tensor>, b: Result<Tensor>, s: seq<nat>, t: seq<nat>)
    requires p.Constructed() && |p.A.shape| > 2 && a.Ok? && b.Ok? && |s| == |t| <= 1
    requires a.value.shape == s + p.A.shape[1..] && b.value.shape == t + p.B.shape[1..]
    ensures Paired(a, b).Ok?
  {
  }

  lemma PairedFails(a: Result<Tensor>, b: Result<Tensor>)
    requires a.Err? || b.Err?
    ensures Paired(a, b).Err?
  {
  }

  lemma MatrixReturns(p: Lora, item: Item)
    requires p.Valid() && |p.A.shape| == 2
    ensures GetOne(p, item).Ok? <==> item.Slice? && Resolve(item, p.B.shape[0]).Ok?
  {
    PartsAlike(p);
    PaddedHead(item, 2);
    MatrixIs(p, item);
    hide *;
    var items := [item] + Fulls(1);
    HeadAndFulls(item, p.B.shape);
    IndexResolved(p.B, items);
    if item.Slice? && Resolve(item, p.B.shape[0]).Ok? {
      SliceOfRows(p, item);
    } else if item.Slice? {
      PairedFails(Ok(p.A), Index(p.B, items));
    }
  }

  lemma SliceOfRows(p: Lora, item: Item)
    requires p.Constructed() && |p.A.shape| == 2 && item.Slice? && Resolve(item, p.B.shape[0]).Ok?
    requires Index(p.B, [item] + Fulls(1)).Ok?
    ensures Paired(Ok(p.A), Index(p.B, [item] + Fulls(1))).Ok?
  {
    hide Resolve, Index, Fulls, Paired;
    HeadIndexShape(p.B, item);
    PlaceKind(item, p.B.shape[0]);
    RowsConstruct(p, Index(p.B, [item] + Fulls(1)), Resolve(item, p.B.shape[0]).value.count);
  }

  lemma MatrixIs(p: Lora, item: Item)
    requires p.Constructed() && |p.A.shape| == 2
    ensures GetOne(p, item) ==
            if item.Pick? then Err(NotImplemented) else Paired(Ok(p.A), Index(p.B, Padded([item], 2)))
  {
    hide Index, Padded, Paired;
  }

  lemma RowsConstruct(p: Lora, b: Result<Tensor>, rows: nat)
    requires p.Constructed() && |p.A.shape| == 2 && b.Ok? && b.value.shape == [rows] + p.B.shape[1..]
    ensures Paired(Ok(p.A), b).Ok?
  {
  }

  // ----- cat and stack

  /** All but the first dimension are shared. */
  ghost predicate Alike(ts: seq<Tensor>) {
    ts != [] && forall t :: t in ts ==> t.shape != [] && ts[0].shape != [] && t.shape[1..] == ts[0].shape[1..]
  }

  lemma AlikeInit(us: seq<Tensor>, t: Tensor)
    requires us != []
    ensures Alike(us + [t]) <==> Alike(us) && t.shape != [] && t.shape[1..] == us[0].shape[1..]
  {
    var ts := us + [t];
    assert ts[0] == us[0] && t in ts && us[0] in us;
    forall u | u in us ensures u in ts { }
  }

  lemma {:induction false} CatReturns(ts: seq<Tensor>)
    ensures Cat(ts).Ok? <==> Alike(ts)
    ensures Cat(ts).Ok? ==> Cat(ts).value.shape != [] && Cat(ts).value.shape[1..] == ts[0].shape[1..]
  {
    var n := |ts|;
    if n == 1 {
      assert ts == [ts[0]];
      CatOne(ts[0]);
    } else if n > 1 {
      var us, t := ts[..n - 1], ts[n - 1];
      assert ts == us + [t] && us[0] == ts[0];
      hide *;
      CatReturns(us);
      AlikeInit(us, t);
      CatStep(us, t);
    }
  }

  lemma CatStep(us: seq<Tensor>, t: Tensor)
    requires us != []
    ensures Cat(us + [t]).Ok? <==> Cat(us).Ok? && Joinable(Cat(us).value, t)
    ensures Cat(us + [t]).Ok? ==> Cat(us + [t]).value == Cat2(Cat(us).value, t)
    ensures Cat(us + [t]).Ok? ==>
              Cat(us + [t]).value.shape != [] && Cat(us + [t]).value.shape[1..] == Cat(us).value.shape[1..]
    ensures Cat(us).Ok? ==>
              (Joinable(Cat(us).value, t) <==> Cat(us).value.shape != [] && t.shape != [] &&
                                               Cat(us).value.shape[1..] == t.shape[1..])
  {
    assert (us + [t])[..|us|] == us;
  }

  lemma JoinedConstruct(ps: seq<Lora>)
    requires ps != [] && ps[0].Constructed() && |ps[0].A.shape| > 2 && Cat(As(ps)).Ok? && Cat(Bs(ps)).Ok?
    ensures Paired(Cat(As(ps)), Cat(Bs(ps))).Ok?
  {
    CatReturns(As(ps));
    CatReturns(Bs(ps));
    assert As(ps)[0] == ps[0].A && Bs(ps)[0] == ps[0].B;
    hide Cat, Alike, As, Bs;
    SameTails(Cat(As(ps)).value.shape, ps[0].A.shape);
    SameTails(Cat(Bs(ps)).value.shape, ps[0].B.shape);
  }

  lemma SameTails(s: seq<nat>, t: seq<nat>)
    requires s != [] && t != [] && s[1..] == t[1..]
    ensures |s| == |t| && forall i :: 1 <= i < |s| ==> s[i] == t[i]
  {
    assert |s[1..]| == |t[1..]|;
    forall i | 1 <= i < |s| ensures s[i] == t[i] { assert s[1..][i - 1] == t[1..][i - 1]; }
  }

  /** cat above two dimensions returns if both parts agree in all dimensions but the first. */
  lemma CatDeepReturns(ps: seq<Lora>)
    requires AllValid(ps) && ps != [] && |ps[0].A.shape| > 2
    ensures CatPairs(ps).Ok? <==> Alike(As(ps)) && Alike(Bs(ps))
  {
    FirstConstructed(ps);
    hide Alike, Cat, As, Bs, AllValid;
    CatReturns(As(ps));
    CatReturns(Bs(ps));
    if Cat(As(ps)).Ok? && Cat(Bs(ps)).Ok? { JoinedConstruct(ps); }
  }

  lemma FirstConstructed(ps: seq<Lora>)
    requires AllValid(ps) && ps != []
    ensures ps[0].Constructed()
  {
    hide Tensor.Valid;
    assert ps[0] in ps;
  }

  /** cat of matrices returns if all share A. */
  lemma CatMatricesReturns(ps: seq<Lora>)
    requires AllValid(ps) && ps != [] && |ps[0].A.shape| == 2
    ensures CatPairs(ps).Ok? <==> forall p :: p in ps ==> p.A == ps[0].A
  {
    FirstConstructed(ps);
    if forall p :: p in ps ==> p.A == ps[0].A {
      forall i | 1 <= i < |ps| ensures ps[i].A == ps[0].A { assert ps[i] in ps; }
      SharedRows(ps);
      CatReturns(Bs(ps));
      assert Bs(ps)[0] == ps[0].B;
      hide Cat, Alike, AllValid, Bs;
      SameTails(Cat(Bs(ps)).value.shape, ps[0].B.shape);
    } else {
      hide Cat;
    }
  }

  lemma SharedRows(ps: seq<Lora>)
    requires AllValid(ps) && ps != [] && |ps[0].A.shape| == 2 && forall p :: p in ps ==> p.A == ps[0].A
    ensures Alike(Bs(ps))
  {
    hide Tensor.Valid;
    assert ps[0] in ps && Bs(ps)[0] == ps[0].B;
    forall t | t in Bs(ps)
      ensures t.shape != [] && Bs(ps)[0].shape != [] && t.shape[1..] == Bs(ps)[0].shape[1..] {
      var i :| 0 <= i < |ps| && Bs(ps)[i] == t;
      assert ps[i] in ps;
      assert t.shape[1..] == [ps[i].Rank()] && ps[0].B.shape[1..] == [ps[0].Rank()];
    }
  }

  /** All tensors have one shape. */
  ghost predicate OneShape(ts: seq<Tensor>) {
    ts != [] && forall t :: t in ts ==> t.shape == ts[0].shape
  }

  lemma StackOk(ts: seq<Tensor>)
    ensures Stack(ts).Ok? <==> OneShape(ts)
    ensures Stack(ts).Ok? ==>
              |Stack(ts).value.shape| == |ts[0].shape| + 1 &&
              forall i :: 0 <= i < |ts[0].shape| ==> Stack(ts).value.shape[i + 1] == ts[0].shape[i]
  {
    var us := Unsqueezeds(ts);
    CatReturns(us);
    if OneShape(ts) { OneShapeAlike(ts); }
    if Cat(us).Ok? && ts != [] {
      assert us[0].shape[1..] == ts[0].shape;
      SameTails(Cat(us).value.shape, us[0].shape);
    }
    hide Cat, Alike;
  }

  lemma OneShapeAlike(ts: seq<Tensor>)
    requires OneShape(ts)
    ensures Alike(Unsqueezeds(ts))
  {
    var us := Unsqueezeds(ts);
    assert us[0].shape == [1] + ts[0].shape;
    forall u | u in us ensures u.shape != [] && u.shape[1..] == us[0].shape[1..] {
      var i :| 0 <= i < |us| && us[i] == u;
      assert ts[i] in ts;
    }
  }

  /** stack returns if all A have one shape and all B have one. */
  lemma StackReturns(ps: seq<Lora>)
    requires AllValid(ps)
    ensures StackPairs(ps).Ok? <==> OneShape(As(ps)) && OneShape(Bs(ps))
  {
    StackOk(As(ps));
    StackOk(Bs(ps));
    if ps != [] {
      FirstConstructed(ps);
      assert As(ps)[0] == ps[0].A && Bs(ps)[0] == ps[0].B;
    }
    hide Stack, OneShape, As, Bs, AllValid;
    if ps != [] && Stack(As(ps)).Ok? && Stack(Bs(ps)).Ok? {
      StackConstruct(ps[0], Stack(As(ps)), Stack(Bs(ps)));
    }
  }

  lemma StackConstruct(p: Lora, a: Result<Tensor>, b: Result<Tensor>)
    requires p.Constructed() && a.Ok? && b.Ok?
    requires |a.value.shape| == |p.A.shape| + 1 && |b.value.shape| == |p.B.shape| + 1
    requires forall i :: 0 <= i < |p.A.shape| ==> a.value.shape[i + 1] == p.A.shape[i]
    requires forall i :: 0 <= i < |p.B.shape| ==> b.value.shape[i + 1] == p.B.shape[i]
    ensures Paired(a, b).Ok?
  {
    assert a.value.shape[|p.A.shape| - 1] == p.A.shape[|p.A.shape| - 2];
    assert b.value.shape[|p.B.shape|] == p.B.shape[|p.B.shape| - 1];
  }
}
