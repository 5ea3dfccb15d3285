/** Tuples with an ellipsis in LoraTorchTensor.__getitem__: what they select, and what they should select. */
module LoraEllipsis {
  import opened Bits
  import opened Tensors
  import opened LoraTensor
  import opened LoraIndexing
  import opened LoraGetItem

  // ----- tuples

  datatype Entry = Just(item: Item) | Ellipsis

  /** Each ellipsis becomes `k` full slices. */
  function Expand(entries: seq<Entry>, k: nat): seq<Item> {
    if entries == [] then []
    else (if entries[0].Ellipsis? then Fulls(k) else [entries[0].item]) + Expand(entries[1..], k)
  }

  function GetTuple(p: Lora, entries: seq<Entry>): Result<Lora>
    requires p.Constructed()
    decreases |entries|
  {
    if entries == [] then Err(AssertionFailed)
    else if entries[|entries| - 1].Ellipsis? then GetTuple(p, entries[..|entries| - 1])
    else GetItems(p, Padded(Expand(entries, |entries| - 1), |p.A.shape|))
  }

  function Justs(items: seq<Item>): (r: seq<Entry>)
    ensures |r| == |items|
  {
    seq(|items|, i requires 0 <= i < |items| => Just(items[i]))
  }

  lemma {:induction false} ExpandJusts(items: seq<Item>, k: nat)
    ensures Expand(Justs(items), k) == items
  {
    if items != [] {
      assert Justs(items)[1..] == Justs(items[1..]);
      ExpandJusts(items[1..], k);
    }
  }

  lemma {:induction false} ExpandAppend(es: seq<Entry>, fs: seq<Entry>, k: nat)
    ensures Expand(es + fs, k) == Expand(es, k) + Expand(fs, k)
  {
    if es == [] {
      assert es + fs == fs;
    } else {
      assert (es + fs)[1..] == es[1..] + fs;
      ExpandAppend(es[1..], fs, k);
    }
  }

  /** What an ellipsis means in an index of `n` dimensions: as many full slices as are missing. */
  function Meant(pre: seq<Item>, post: seq<Item>, n: nat): seq<Item>
    requires |pre| + |post| <= n
  {
    (pre + Fulls(n - |pre| - |post|)) + post
  }

  /** What the expansion writes for it: as many full slices as there are other entries. */
  function Written(pre: seq<Item>, post: seq<Item>): (r: seq<Item>)
    ensures |r| == 2 * (|pre| + |post|)
  {
    (pre + Fulls(|pre| + |post|)) + post
  }

  /** What a tuple with one ellipsis before its end is expanded to, and when that is what it should be, item by item. */
  lemma EllipsisExpands(p: Lora, pre: seq<Item>, post: seq<Item>)
    requires p.Constructed() && post != []
    ensures var (n, k) := (|p.A.shape|, |pre| + |post|);
            && GetTuple(p, WithEllipsis(pre, post)) == GetItems(p, Padded(Written(pre, post), n))
            && (2 * k > n ==> GetTuple(p, WithEllipsis(pre, post)) == Err(IndexOutOfRange))
  {
    hide *;
    LastIsJust(pre, post);
    GetTupleIs(p, WithEllipsis(pre, post));
    ExpandEllipsis(pre, post);
    if 2 * (|pre| + |post|) > |p.A.shape| { TooManyItems(p, Written(pre, post)); }
  }

  function WithEllipsis(pre: seq<Item>, post: seq<Item>): seq<Entry> {
    (Justs(pre) + [Ellipsis]) + Justs(post)
  }

  lemma GetTupleIs(p: Lora, entries: seq<Entry>)
    requires p.Constructed() && entries != [] && entries[|entries| - 1].Just?
    ensures GetTuple(p, entries) == GetItems(p, Padded(Expand(entries, |entries| - 1), |p.A.shape|))
  {
    hide Expand, GetItems, Padded;
  }

  lemma LastIsJust(pre: seq<Item>, post: seq<Item>)
    requires post != []
    ensures var entries := WithEllipsis(pre, post);
            |entries| == |pre| + |post| + 1 && entries[|entries| - 1].Just?
  {
    hide Justs;
    var entries := WithEllipsis(pre, post);
    assert entries[|entries| - 1] == Justs(post)[|post| - 1];
    LastJust(post);
  }

  lemma LastJust(items: seq<Item>)
    requires items != []
    ensures Justs(items)[|items| - 1].Just?
  {
  }

  lemma ExpandEllipsis(pre: seq<Item>, post: seq<Item>)
    ensures Expand(WithEllipsis(pre, post), |pre| + |post|) == Written(pre, post)
  {
    var k := |pre| + |post|;
    ExpandAppend(Justs(pre) + [Ellipsis], Justs(post), k);
    ExpandAppend(Justs(pre), [Ellipsis], k);
    ExpandJusts(pre, k);
    ExpandJusts(post, k);
    assert Expand([Ellipsis], k) == Fulls(k);
  }

  lemma TooManyItems(p: Lora, items: seq<Item>)
    requires p.Constructed() && |items| > |p.A.shape|
    ensures GetItems(p, Padded(items, |p.A.shape|)) == Err(IndexOutOfRange)
  {
  }

  // ----- which entries an item selects

  /** A place in the one form that depends only on the entries it selects, and on their order. */
  function Chosen(p: Place): Place {
    match p
    case Fixed(pos) => Span(pos, 1, 1)
    case Span(start, step, count) =>
      if count == 0 then Span(0, 1, 0) else if count == 1 then Span(start, 1, 1) else p
  }

  predicate SameEntries(x: Item, y: Item, n: nat) {
    Resolve(x, n).Ok? && Resolve(y, n).Ok? && Chosen(Resolve(x, n).value) == Chosen(Resolve(y, n).value)
  }

  /** Dimension by dimension two tuples of items select the same entries. */
  predicate SameSelection(xs: seq<Item>, ys: seq<Item>, shape: seq<nat>) {
    |xs| == |ys| == |shape| && forall i :: 0 <= i < |shape| ==> SameEntries(xs[i], ys[i], shape[i])
  }

  /**
   * When two tuples give the same result for every product of this shape and rank: the shapes of the results agree,
   * and, unless there is nothing to select or nothing but zeros, so do the entries selected in each dimension.
   */
  predicate SameResults(xs: seq<Item>, ys: seq<Item>, shape: seq<nat>, rank: nat) {
    && Resolved(xs, shape) && Resolved(ys, shape) && IndexedShape(xs, shape) == IndexedShape(ys, shape)
    && (rank == 0 || 0 in IndexedShape(xs, shape) || SameSelection(xs, ys, shape))
  }

  function ChosenAt(item: Item, n: nat): Place
    requires Resolve(item, n).Ok?
  {
    Chosen(Resolve(item, n).value)
  }

  lemma ChosenShape(item: Item, n: nat)
    requires Resolve(item, n).Ok?
    ensures var c := ChosenAt(item, n);
            c.Span? && c.step >= 1 && (c.count == 1 ==> c.step == 1)
  {
    if item.Slice? { StepPositive(item, n); }
  }

  // ----- the same entries give the same sources

  /** The entries of an index whose dimensions are not of size 1. */
  function Wide(shape: seq<nat>, idx: seq<nat>): seq<nat>
    requires |idx| == |shape|
  {
    if shape == [] then []
    else
      var w := Wide(shape[..|shape| - 1], idx[..|shape| - 1]);
      if shape[|shape| - 1] == 1 then w else w + [idx[|shape| - 1]]
  }

  lemma WideAppend(shape: seq<nat>, idx: seq<nat>, a: nat, k: nat)
    requires |idx| == |shape|
    ensures Wide(shape + [a], idx + [k]) == Wide(shape, idx) + if a == 1 then [] else [k]
  {
    assert (shape + [a])[..|shape|] == shape && (idx + [k])[..|idx|] == idx;
  }

  function WideTail(c: Place, k: nat): seq<nat>
    requires c.Span?
  {
    if c.count == 1 then [] else [k]
  }

  /** Taking the last item off an index of the result, whether the item kept its dimension or not. */
  lemma LastOff(us: seq<Item>, ss: seq<nat>, x: Item, n: nat, idx: seq<nat>) returns (u: seq<nat>, k: nat)
    requires |us| == |ss| && Resolved(us + [x], ss + [n]) && InRange(IndexedShape(us + [x], ss + [n]), idx)
    ensures Resolved(us, ss) && Resolve(x, n).Ok? && InRange(IndexedShape(us, ss), u)
    ensures |idx| == |IndexedShape(us + [x], ss + [n])| && |u| == |IndexedShape(us, ss)|
    ensures var c := ChosenAt(x, n);
            && c.Span? && k < c.count
            && Wide(IndexedShape(us + [x], ss + [n]), idx) == Wide(IndexedShape(us, ss), u) + WideTail(c, k)
            && SourceOf(us + [x], ss + [n], idx) == SourceOf(us, ss, u) + [c.start + c.step * k]
  {
    hide *;
    ResolvedAppend(us, ss, x, n);
    InRangeLength(IndexedShape(us + [x], ss + [n]), idx);
    if x.Pick? {
      PickOff(us, ss, x, n, idx);
      u, k := idx, 0;
    } else {
      SliceLength(us, ss, x, n, idx);
      u, k := idx[..|idx| - 1], idx[|idx| - 1];
      assert idx == u + [k];
      SliceOff(us, ss, x, n, u, k);
    }
  }

  lemma PickOff(us: seq<Item>, ss: seq<nat>, x: Item, n: nat, u: seq<nat>)
    requires |us| == |ss| && Resolved(us + [x], ss + [n]) && Resolved(us, ss) && Resolve(x, n).Ok? && x.Pick?
    requires InRange(IndexedShape(us + [x], ss + [n]), u) && |u| == |IndexedShape(us + [x], ss + [n])|
    ensures InRange(IndexedShape(us, ss), u) && |u| == |IndexedShape(us, ss)|
    ensures ChosenAt(x, n).Span? && ChosenAt(x, n).count == 1
    ensures Wide(IndexedShape(us + [x], ss + [n]), u) == Wide(IndexedShape(us, ss), u) + WideTail(ChosenAt(x, n), 0)
    ensures SourceOf(us + [x], ss + [n], u) == SourceOf(us, ss, u) + [ChosenAt(x, n).start + ChosenAt(x, n).step * 0]
  {
    PlaceKind(x, n);
    hide Resolve, Resolved, IndexedShape, SourceOf, InRange, Wide;
    IndexedAppend(us, ss, x, n);
    SourcePick(us, ss, x, n, u);
  }

  lemma SliceLength(us: seq<Item>, ss: seq<nat>, x: Item, n: nat, idx: seq<nat>)
    requires |us| == |ss| && Resolved(us + [x], ss + [n]) && Resolved(us, ss) && Resolve(x, n).Ok? && x.Slice?
    requires |idx| == |IndexedShape(us + [x], ss + [n])|
    ensures |idx| == |IndexedShape(us, ss)| + 1
  {
    PlaceKind(x, n);
    hide Resolve, Resolved, IndexedShape;
    IndexedAppend(us, ss, x, n);
  }

  lemma SliceOff(us: seq<Item>, ss: seq<nat>, x: Item, n: nat, u: seq<nat>, k: nat)
    requires |us| == |ss| && Resolved(us + [x], ss + [n]) && Resolved(us, ss) && Resolve(x, n).Ok? && x.Slice?
    requires InRange(IndexedShape(us + [x], ss + [n]), u + [k])
    requires |u + [k]| == |IndexedShape(us + [x], ss + [n])|
    ensures InRange(IndexedShape(us, ss), u) && |u| == |IndexedShape(us, ss)|
    ensures ChosenAt(x, n).Span? && k < ChosenAt(x, n).count
    ensures Wide(IndexedShape(us + [x], ss + [n]), u + [k]) ==
            Wide(IndexedShape(us, ss), u) + WideTail(ChosenAt(x, n), k)
    ensures SourceOf(us + [x], ss + [n], u + [k]) ==
            SourceOf(us, ss, u) + [ChosenAt(x, n).start + ChosenAt(x, n).step * k]
  {
    PlaceKind(x, n);
    hide Resolve, Resolved, IndexedShape, SourceOf, InRange, Wide;
    IndexedAppend(us, ss, x, n);
    var count := Resolve(x, n).value.count;
    InRangeInit(IndexedShape(us, ss), count, u, k);
    WideAppend(IndexedShape(us, ss), u, count, k);
    SourceAppend(us, ss, x, n, u, k);
  }

  lemma SelectionInit(us: seq<Item>, x: Item, vs: seq<Item>, y: Item, ss: seq<nat>, n: nat)
    requires |us| == |vs| == |ss| && SameSelection(us + [x], vs + [y], ss + [n])
    ensures SameSelection(us, vs, ss) && SameEntries(x, y, n)
  {
    hide SameEntries;
    var xs, ys, shape := us + [x], vs + [y], ss + [n];
    assert SameEntries(xs[|us|], ys[|us|], shape[|us|]);
    forall i | 0 <= i < |ss| ensures SameEntries(us[i], vs[i], ss[i]) {
      assert SameEntries(xs[i], ys[i], shape[i]);
    }
  }

  lemma SameEntriesAre(x: Item, y: Item, n: nat)
    requires SameEntries(x, y, n)
    ensures Resolve(x, n).Ok? && Resolve(y, n).Ok? && ChosenAt(x, n) == ChosenAt(y, n)
  {
    hide Resolve, Chosen;
  }

  /** Indices that agree where the results have more than one entry have the same source. */
  lemma {:induction false} SameSources(xs: seq<Item>, ys: seq<Item>, shape: seq<nat>, u: seq<nat>, v: seq<nat>)
    requires SameSelection(xs, ys, shape) && Resolved(xs, shape) && Resolved(ys, shape)
    requires InRange(IndexedShape(xs, shape), u) && InRange(IndexedShape(ys, shape), v)
    requires |u| == |IndexedShape(xs, shape)| && |v| == |IndexedShape(ys, shape)|
    requires Wide(IndexedShape(xs, shape), u) == Wide(IndexedShape(ys, shape), v)
    ensures SourceOf(xs, shape, u) == SourceOf(ys, shape, v)
    decreases |shape|, 1
  {
    hide Resolved, IndexedShape, SameEntries, Wide, InRange;
    if shape != [] {
      var n := |shape|;
      assert |xs| == |ys| == n;
      assert xs == xs[..n - 1] + [xs[n - 1]] && ys == ys[..n - 1] + [ys[n - 1]]
             && shape == shape[..n - 1] + [shape[n - 1]];
      SameSourcesAppend(xs[..n - 1], xs[n - 1], ys[..n - 1], ys[n - 1], shape[..n - 1], shape[n - 1], u, v);
    }
  }

  lemma SameSourcesAppend(us: seq<Item>, x: Item, vs: seq<Item>, y: Item, ss: seq<nat>, n: nat, u: seq<nat>,
      v: seq<nat>)
    requires |us| == |vs| == |ss| && SameSelection(us + [x], vs + [y], ss + [n])
    requires Resolved(us + [x], ss + [n]) && Resolved(vs + [y], ss + [n])
    requires InRange(IndexedShape(us + [x], ss + [n]), u) && InRange(IndexedShape(vs + [y], ss + [n]), v)
    requires |u| == |IndexedShape(us + [x], ss + [n])| && |v| == |IndexedShape(vs + [y], ss + [n])|
    requires Wide(IndexedShape(us + [x], ss + [n]), u) == Wide(IndexedShape(vs + [y], ss + [n]), v)
    ensures SourceOf(us + [x], ss + [n], u) == SourceOf(vs + [y], ss + [n], v)
    decreases |ss| + 1, 0
  {
    hide *;
    SelectionInit(us, x, vs, y, ss, n);
    SameEntriesAre(x, y, n);
    var u', k := LastOff(us, ss, x, n, u);
    var v', l := LastOff(vs, ss, y, n, v);
    TailEqual(Wide(IndexedShape(us, ss), u'), Wide(IndexedShape(vs, ss), v'), ChosenAt(x, n), k, l);
    SameSources(us, vs, ss, u', v');
  }

  lemma TailEqual(w: seq<nat>, w': seq<nat>, c: Place, k: nat, l: nat)
    requires c.Span? && k < c.count && l < c.count && w + WideTail(c, k) == w' + WideTail(c, l)
    ensures w == w' && k == l
  {
    var s, t := w + WideTail(c, k), w' + WideTail(c, l);
    assert |s| == |t| && s[..|w|] == w && t[..|w'|] == w';
    if c.count != 1 { assert s[|w|] == k && t[|w'|] == l; }
  }

  // ----- indexing with the same results

  lemma NoEntries(t: Tensor)
    requires t.Valid() && 0 in t.shape
    ensures t.data == []
  {
    ZeroProd(t.shape);
  }

  lemma {:induction false} ZeroProd(shape: seq<nat>)
    requires 0 in shape
    ensures Prod(shape) == 0
  {
    if shape[|shape| - 1] != 0 {
      assert 0 in shape[..|shape| - 1] by {
        var i :| 0 <= i < |shape| && shape[i] == 0;
        assert shape[..|shape| - 1][i] == 0;
      }
      ZeroProd(shape[..|shape| - 1]);
    }
  }

  /** The same results: the first half of the condition. */
  lemma SameResultsIndex(p: Lora, xs: seq<Item>, ys: seq<Item>)
    requires p.Constructed() && SameResults(xs, ys, p.Shape(), p.Rank())
    ensures Index(p.Product(), xs).Ok? && Index(p.Product(), xs) == Index(p.Product(), ys)
  {
    ProductShape(p);
    var t, shape := p.Product(), p.Shape();
    hide Lora.Product, Lora.Shape, Lora.Constructed, Tensor.At, Tensor.Valid, IndexedShape, SourceOf, SameSelection;
    hide Index, InRange, Resolve, Resolved;
    IndexResolved(t, xs);
    IndexResolved(t, ys);
    IndexShape(t, xs);
    IndexShape(t, ys);
    var r, s := Index(t, xs).value, Index(t, ys).value;
    if 0 in IndexedShape(xs, shape) {
      NoEntries(r);
      NoEntries(s);
    } else {
      forall idx | InRange(r.shape, idx) ensures r.At(idx) == s.At(idx) {
        SameResultsAt(p, xs, ys, idx);
      }
      Extensional(r, s);
    }
  }

  lemma SameResultsAt(p: Lora, xs: seq<Item>, ys: seq<Item>, idx: seq<nat>)
    requires p.Constructed() && Resolved(xs, p.Shape()) && Resolved(ys, p.Shape())
    requires IndexedShape(xs, p.Shape()) == IndexedShape(ys, p.Shape()) && InRange(IndexedShape(xs, p.Shape()), idx)
    requires p.Product().shape == p.Shape() && |p.B.shape| >= 1
    requires p.Rank() == 0 || SameSelection(xs, ys, p.Shape())
    ensures Index(p.Product(), xs).value.At(idx) == Index(p.Product(), ys).value.At(idx)
  {
    hide *;
    var t, shape := p.Product(), p.Shape();
    InRangeLength(IndexedShape(xs, shape), idx);
    IndexAt(t, xs, idx);
    IndexAt(t, ys, idx);
    if p.Rank() == 0 {
      RankZero(p, SourceOf(xs, shape, idx));
      RankZero(p, SourceOf(ys, shape, idx));
    } else {
      SameSources(xs, ys, shape, idx, idx);
    }
  }

  // ----- different entries are seen in some product

  /** Of two different selections one has an entry the other does not. */
  lemma Apart(s: Place, t: Place) returns (left: bool, k: nat)
    requires s.Span? && t.Span? && s.step >= 1 && t.step >= 1 && s.count >= 1 && t.count >= 1 && s != t
    requires (s.count == 1 ==> s.step == 1) && (t.count == 1 ==> t.step == 1)
    ensures left ==> k < s.count && forall j: nat :: j < t.count ==> Step(t, j) != Step(s, k)
    ensures !left ==> k < t.count && forall j: nat :: j < s.count ==> Step(s, j) != Step(t, k)
  {
    if s.start < t.start {
      left, k := true, 0;
    } else if t.start < s.start {
      left, k := false, 0;
    } else if s.count == 1 || (t.count > 1 && t.step < s.step) {
      left, k := false, 1;
      OffStep(s, t);
    } else if t.count == 1 || s.step < t.step {
      left, k := true, 1;
      OffStep(t, s);
    } else if s.count > t.count {
      left, k := true, t.count;
      forall j: nat | j < t.count ensures Step(t, j) != Step(s, k) { MulStrict(s.step, j, k); }
    } else {
      left, k := false, s.count;
      forall j: nat | j < s.count ensures Step(s, j) != Step(t, k) { MulStrict(s.step, j, k); }
    }
  }

  lemma MulStrict(step: nat, j: nat, k: nat)
    requires step >= 1 && j < k
    ensures step * j < step * k
  {
    MulMono(j + 1, k, step);
    assert (j + 1) * step == step * j + step && k * step == step * k;
  }

  /** The second entry of the finer selection lies between the first two of the coarser one. */
  lemma OffStep(s: Place, t: Place)
    requires s.Span? && t.Span? && s.start == t.start && t.step >= 1 && s.step >= 1
    requires s.count == 1 || t.step < s.step
    ensures forall j: nat :: j < s.count ==> Step(s, j) != Step(t, 1)
  {
    forall j: nat | j < s.count ensures Step(s, j) != Step(t, 1) {
      if j >= 1 { MulMono(1, j, s.step); assert j * s.step == s.step * j; }
    }
  }

  /** An index of the result whose source has a chosen entry in dimension `e`. */
  lemma {:induction false} Pointing(xs: seq<Item>, shape: seq<nat>, e: nat, k: nat) returns (idx: seq<nat>)
    requires Resolved(xs, shape) && e < |shape| && 0 !in IndexedShape(xs, shape)
    requires |xs| == |shape| && Resolve(xs[e], shape[e]).Ok?
    requires ChosenAt(xs[e], shape[e]).Span? && k < ChosenAt(xs[e], shape[e]).count
    ensures InRange(IndexedShape(xs, shape), idx) && |idx| == |IndexedShape(xs, shape)|
    ensures SourceOf(xs, shape, idx)[e] == Step(ChosenAt(xs[e], shape[e]), k)
    decreases |shape|, 1
  {
    hide *;
    var n := |xs|;
    assert xs == xs[..n - 1] + [xs[n - 1]] && shape == shape[..n - 1] + [shape[n - 1]];
    idx := PointingAppend(xs[..n - 1], xs[n - 1], shape[..n - 1], shape[n - 1], e, k);
  }

  lemma PointingAppend(us: seq<Item>, x: Item, ss: seq<nat>, n: nat, e: nat, k: nat) returns (idx: seq<nat>)
    requires |us| == |ss| && Resolved(us + [x], ss + [n]) && e <= |ss| && 0 !in IndexedShape(us + [x], ss + [n])
    requires Resolve((us + [x])[e], (ss + [n])[e]).Ok?
    requires ChosenAt((us + [x])[e], (ss + [n])[e]).Span? && k < ChosenAt((us + [x])[e], (ss + [n])[e]).count
    ensures InRange(IndexedShape(us + [x], ss + [n]), idx) && |idx| == |IndexedShape(us + [x], ss + [n])|
    ensures SourceOf(us + [x], ss + [n], idx)[e] == Step(ChosenAt((us + [x])[e], (ss + [n])[e]), k)
    decreases |ss| + 1, 0
  {
    hide *;
    NonEmptyInit(us, ss, x, n);
    StepOfSpan(ChosenAt((us + [x])[e], (ss + [n])[e]), k);
    if e == |ss| {
      assert (us + [x])[e] == x && (ss + [n])[e] == n;
      var u := Origin(us, ss);
      idx := PutBack(us, ss, x, n, u, k);
    } else {
      assert (us + [x])[e] == us[e] && (ss + [n])[e] == ss[e];
      var u := Pointing(us, ss, e, k);
      idx := PutBack(us, ss, x, n, u, 0);
    }
  }

  lemma StepOfSpan(p: Place, k: nat)
    requires p.Span?
    ensures Step(p, k) == p.start + p.step * k
  {
  }

  lemma NonEmptyInit(us: seq<Item>, ss: seq<nat>, x: Item, n: nat)
    requires |us| == |ss| && Resolved(us + [x], ss + [n]) && 0 !in IndexedShape(us + [x], ss + [n])
    ensures Resolved(us, ss) && 0 !in IndexedShape(us, ss) && Resolve(x, n).Ok?
    ensures ChosenAt(x, n).Span? && ChosenAt(x, n).count > 0
  {
    ResolvedAppend(us, ss, x, n);
    PlaceKind(x, n);
    hide Resolve, Resolved, IndexedShape;
    IndexedAppend(us, ss, x, n);
    if x.Slice? {
      var s := IndexedShape(us, ss);
      assert (s + [Resolve(x, n).value.count])[|s|] in s + [Resolve(x, n).value.count];
    }
  }

  /** The index of the result with a source that is to be extended by entry `k` of one more item. */
  lemma PutBack(us: seq<Item>, ss: seq<nat>, x: Item, n: nat, u: seq<nat>, k: nat) returns (idx: seq<nat>)
    requires |us| == |ss| && Resolved(us + [x], ss + [n]) && Resolved(us, ss) && Resolve(x, n).Ok?
    requires InRange(IndexedShape(us, ss), u) && ChosenAt(x, n).Span? && k < ChosenAt(x, n).count
    ensures InRange(IndexedShape(us + [x], ss + [n]), idx) && |idx| == |IndexedShape(us + [x], ss + [n])|
    ensures |u| == |IndexedShape(us, ss)|
    ensures SourceOf(us + [x], ss + [n], idx) ==
            SourceOf(us, ss, u) + [ChosenAt(x, n).start + ChosenAt(x, n).step * k]
  {
    PlaceKind(x, n);
    hide Resolve, Resolved, IndexedShape, SourceOf, InRange;
    IndexedAppend(us, ss, x, n);
    InRangeLength(IndexedShape(us, ss), u);
    if x.Pick? {
      idx := u;
      SourcePick(us, ss, x, n, u);
    } else {
      idx := u + [k];
      InRangeSnoc(IndexedShape(us, ss), Resolve(x, n).value.count, u, k);
      SourceAppend(us, ss, x, n, u, k);
    }
  }

  lemma {:induction false} Origin(xs: seq<Item>, shape: seq<nat>) returns (idx: seq<nat>)
    requires Resolved(xs, shape) && 0 !in IndexedShape(xs, shape)
    ensures InRange(IndexedShape(xs, shape), idx)
  {
    idx := seq(|IndexedShape(xs, shape)|, _ => 0);
    forall i | 0 <= i < |idx| ensures idx[i] < IndexedShape(xs, shape)[i] {
      assert IndexedShape(xs, shape)[i] in IndexedShape(xs, shape);
    }
  }

  /** Every source lies at entries that the items select. */
  lemma {:induction false} SourceSelected(xs: seq<Item>, shape: seq<nat>, idx: seq<nat>, e: nat) returns (j: nat)
    requires Resolved(xs, shape) && e < |shape| == |xs| && InRange(IndexedShape(xs, shape), idx)
    requires |idx| == |IndexedShape(xs, shape)|
    ensures Resolve(xs[e], shape[e]).Ok? && ChosenAt(xs[e], shape[e]).Span? && j < ChosenAt(xs[e], shape[e]).count
    ensures SourceOf(xs, shape, idx)[e] == Step(ChosenAt(xs[e], shape[e]), j)
    decreases |shape|, 1
  {
    hide *;
    var n := |xs|;
    assert xs == xs[..n - 1] + [xs[n - 1]] && shape == shape[..n - 1] + [shape[n - 1]];
    j := SelectedAppend(xs[..n - 1], xs[n - 1], shape[..n - 1], shape[n - 1], idx, e);
  }

  lemma SelectedAppend(us: seq<Item>, x: Item, ss: seq<nat>, n: nat, idx: seq<nat>, e: nat) returns (j: nat)
    requires |us| == |ss| && Resolved(us + [x], ss + [n]) && e <= |ss| && InRange(IndexedShape(us + [x], ss + [n]), idx)
    requires |idx| == |IndexedShape(us + [x], ss + [n])|
    ensures Resolve((us + [x])[e], (ss + [n])[e]).Ok?
    ensures ChosenAt((us + [x])[e], (ss + [n])[e]).Span? && j < ChosenAt((us + [x])[e], (ss + [n])[e]).count
    ensures SourceOf(us + [x], ss + [n], idx)[e] == Step(ChosenAt((us + [x])[e], (ss + [n])[e]), j)
    decreases |ss| + 1, 0
  {
    hide *;
    var u, k := LastOff(us, ss, x, n, idx);
    if e == |ss| {
      assert (us + [x])[e] == x && (ss + [n])[e] == n;
      j := k;
    } else {
      assert (us + [x])[e] == us[e] && (ss + [n])[e] == ss[e];
      j := SourceSelected(us, ss, u, e);
    }
    StepOfSpan(ChosenAt((us + [x])[e], (ss + [n])[e]), j);
  }

  /** Items that select differently have an index with different sources. */
  lemma DifferentSources(xs: seq<Item>, ys: seq<Item>, shape: seq<nat>) returns (idx: seq<nat>, e: nat)
    requires Resolved(xs, shape) && Resolved(ys, shape) && IndexedShape(xs, shape) == IndexedShape(ys, shape)
    requires 0 !in IndexedShape(xs, shape) && !SameSelection(xs, ys, shape)
    ensures e < |shape| && InRange(IndexedShape(xs, shape), idx) && |idx| == |IndexedShape(xs, shape)|
    ensures SourceOf(xs, shape, idx)[e] != SourceOf(ys, shape, idx)[e]
  {
    e := DifferentItem(xs, ys, shape);
    hide *;
    var x, y, n := xs[e], ys[e], shape[e];
    ChosenShape(x, n);
    ChosenShape(y, n);
    NonEmptyAt(xs, shape, e);
    NonEmptyAt(ys, shape, e);
    var left, k := Apart(ChosenAt(x, n), ChosenAt(y, n));
    if left {
      idx := Pointing(xs, shape, e, k);
      var j := SourceSelected(ys, shape, idx, e);
    } else {
      idx := Pointing(ys, shape, e, k);
      var j := SourceSelected(xs, shape, idx, e);
    }
  }

  lemma DifferentItem(xs: seq<Item>, ys: seq<Item>, shape: seq<nat>) returns (e: nat)
    requires Resolved(xs, shape) && Resolved(ys, shape) && !SameSelection(xs, ys, shape)
    ensures |xs| == |ys| == |shape| && e < |shape| && Resolve(xs[e], shape[e]).Ok? && Resolve(ys[e], shape[e]).Ok?
    ensures ChosenAt(xs[e], shape[e]) != ChosenAt(ys[e], shape[e])
  {
    hide Resolve, Chosen;
    e :| 0 <= e < |shape| && !SameEntries(xs[e], ys[e], shape[e]);
  }

  lemma {:induction false} NonEmptyAt(xs: seq<Item>, shape: seq<nat>, e: nat)
    requires Resolved(xs, shape) && 0 !in IndexedShape(xs, shape) && e < |shape| == |xs| && Resolve(xs[e], shape[e]).Ok?
    ensures ChosenAt(xs[e], shape[e]).Span? && ChosenAt(xs[e], shape[e]).count > 0
    decreases |shape|
  {
    var n := |xs|;
    var us, ss, x, d := xs[..n - 1], shape[..n - 1], xs[n - 1], shape[n - 1];
    assert xs == us + [x] && shape == ss + [d];
    hide *;
    NonEmptyInit(us, ss, x, d);
    if e < n - 1 {
      assert us[e] == xs[e] && ss[e] == shape[e];
      NonEmptyAt(us, ss, e);
    }
  }

  // ----- a product that tells two entries of a dimension apart

  predicate SameShapes(q: Lora, p: Lora) {
    q.A.shape == p.A.shape && q.B.shape == p.B.shape
  }

  function BStripe(idx: seq<nat>, e: nat, v: nat): real
    requires |idx| >= 2
  {
    if idx[|idx| - 1] == 0 && (e + 1 < |idx| ==> idx[e] == v) then 1.0 else 0.0
  }

  function AStripe(idx: seq<nat>, e: nat, v: nat): real
    requires |idx| >= 2
  {
    if e + 1 < |idx| || idx[|idx| - 1] == v then 1.0 else 0.0
  }

  /** A pair of the shapes of `p` whose product is 1 where dimension `e` has index `v`, and 0 elsewhere. */
  function Striped(p: Lora, e: nat, v: nat): Lora {
    Lora(Build(p.A.shape, idx => if |idx| >= 2 then AStripe(idx, e, v) else 0.0),
         Build(p.B.shape, idx => if |idx| >= 2 then BStripe(idx, e, v) else 0.0))
  }

  lemma StripedValid(p: Lora, e: nat, v: nat)
    requires p.Valid()
    ensures var q := Striped(p, e, v);
            q.Valid() && q.Constructed() && SameShapes(q, p) && q.Rank() == p.Rank() && q.Shape() == p.Shape()
    ensures |p.B.shape| >= 1
  {
    hide Build;
  }

  lemma PartsInRange(p: Lora, idx: seq<nat>, k: nat)
    requires p.Valid() && InRange(p.Shape(), idx) && k < p.Rank()
    ensures |idx| == |p.A.shape| >= 2 && InRange(p.A.shape, p.AIndex(idx, k)) && InRange(p.B.shape, p.BIndex(idx, k))
    ensures p.AIndex(idx, k)[|idx| - 1] == idx[|idx| - 1] && p.BIndex(idx, k) == idx[..|idx| - 1] + [k]
  {
    hide Tensor.Valid;
    var n := |idx|;
    forall i | 0 <= i < n ensures p.AIndex(idx, k)[i] < p.A.shape[i] {
      assert idx[i] < p.Shape()[i];
    }
    forall i | 0 <= i < n ensures p.BIndex(idx, k)[i] < p.B.shape[i] {
      assert idx[i] < p.Shape()[i];
    }
  }

  lemma StripedTerm(p: Lora, e: nat, v: nat, idx: seq<nat>, k: nat)
    requires p.Valid() && InRange(p.Shape(), idx) && k < p.Rank() && e < |idx| == |p.A.shape|
    requires Striped(p, e, v).Constructed()
    ensures Striped(p, e, v).Term(idx, k) == if k == 0 && idx[e] == v then 1.0 else 0.0
  {
    var q := Striped(p, e, v);
    StripedValid(p, e, v);
    PartsInRange(p, idx, k);
    PartsInRange(q, idx, k);
    hide Build, Tensor.At, InRange, Lora.Valid, Lora.Shape, Lora.AIndex, Lora.BIndex;
    var n := |idx|;
    var a, b := q.AIndex(idx, k), q.BIndex(idx, k);
    AtBuild(p.A.shape, i => if |i| >= 2 then AStripe(i, e, v) else 0.0, a);
    AtBuild(p.B.shape, i => if |i| >= 2 then BStripe(i, e, v) else 0.0, b);
    InRangeLength(p.A.shape, a);
    InRangeLength(p.B.shape, b);
    assert b[n - 1] == k && (e < n - 1 ==> b[e] == idx[e]);
  }

  lemma {:induction false} StripedTerms(p: Lora, e: nat, v: nat, idx: seq<nat>, m: nat)
    requires p.Valid() && InRange(p.Shape(), idx) && m <= p.Rank() && e < |idx| == |p.A.shape|
    requires Striped(p, e, v).Constructed() && |idx| == |Striped(p, e, v).A.shape|
    ensures Striped(p, e, v).Terms(idx, m) == if m > 0 && idx[e] == v then 1.0 else 0.0
  {
    hide Lora.Term, Striped, Lora.Valid, Lora.Shape, InRange;
    if m > 0 {
      StripedTerms(p, e, v, idx, m - 1);
      StripedTerm(p, e, v, idx, m - 1);
    }
  }

  lemma StripedProduct(p: Lora, e: nat, v: nat, idx: seq<nat>)
    requires p.Valid() && InRange(p.Shape(), idx) && p.Rank() > 0 && e < |idx| == |p.A.shape|
    requires Striped(p, e, v).Constructed()
    ensures Striped(p, e, v).Product().At(idx) == if idx[e] == v then 1.0 else 0.0
  {
    hide *;
    StripedValid(p, e, v);
    SameRankLength(p, Striped(p, e, v), idx);
    StripedTerms(p, e, v, idx, p.Rank());
    ProductAt(Striped(p, e, v), idx);
  }

  lemma SameRankLength(p: Lora, q: Lora, idx: seq<nat>)
    requires SameShapes(q, p) && |idx| == |p.A.shape|
    ensures |idx| == |q.A.shape|
  {
  }

  /** The second half: other results come from some pair of the same shapes. */
  lemma SomeDiffers(p: Lora, xs: seq<Item>, ys: seq<Item>) returns (q: Lora)
    requires p.Valid() && p.Constructed() && Resolved(xs, p.Shape()) && Resolved(ys, p.Shape())
    requires !SameResults(xs, ys, p.Shape(), p.Rank())
    ensures q.Valid() && q.Constructed() && SameShapes(q, p) && Index(q.Product(), xs) != Index(q.Product(), ys)
  {
    hide *;
    q := p;
    ShapesSelf(p);
    OtherResults(xs, ys, p.Shape(), p.Rank());
    if IndexedShape(xs, p.Shape()) != IndexedShape(ys, p.Shape()) {
      ProductShape(p);
      IndexShape(p.Product(), xs);
      IndexShape(p.Product(), ys);
    } else {
      var idx, e := DifferentSources(xs, ys, p.Shape());
      var v := SourceOf(xs, p.Shape(), idx)[e];
      q := Striped(p, e, v);
      StripedValid(p, e, v);
      StripeSeen(p, q, xs, ys, idx, e, v);
    }
  }

  lemma ShapesSelf(p: Lora)
    requires p.Constructed()
    ensures SameShapes(p, p) && |p.B.shape| >= 1
  {
  }

  lemma OtherResults(xs: seq<Item>, ys: seq<Item>, shape: seq<nat>, rank: nat)
    requires Resolved(xs, shape) && Resolved(ys, shape) && !SameResults(xs, ys, shape, rank)
    ensures IndexedShape(xs, shape) == IndexedShape(ys, shape) ==>
              rank > 0 && 0 !in IndexedShape(xs, shape) && !SameSelection(xs, ys, shape)
  {
    hide SameSelection, IndexedShape, Resolved;
  }

  lemma StripeSeen(p: Lora, q: Lora, xs: seq<Item>, ys: seq<Item>, idx: seq<nat>, e: nat, v: nat)
    requires p.Valid() && p.Constructed() && |p.B.shape| >= 1 && p.Rank() > 0 && q == Striped(p, e, v)
             && q.Constructed()
    requires q.Shape() == p.Shape() && Resolved(xs, p.Shape()) && Resolved(ys, p.Shape())
    requires IndexedShape(xs, p.Shape()) == IndexedShape(ys, p.Shape()) && InRange(IndexedShape(xs, p.Shape()), idx)
    requires |idx| == |IndexedShape(xs, p.Shape())| && e < |p.Shape()|
    requires SourceOf(xs, p.Shape(), idx)[e] == v != SourceOf(ys, p.Shape(), idx)[e]
    ensures Index(q.Product(), xs) != Index(q.Product(), ys)
  {
    hide *;
    var s, t := SourceOf(xs, p.Shape(), idx), SourceOf(ys, p.Shape(), idx);
    ProductShape(q);
    SourceOfInRange(xs, p.Shape(), idx);
    SourceOfInRange(ys, p.Shape(), idx);
    ShapeLength(p);
    StripedProduct(p, e, v, s);
    StripedProduct(p, e, v, t);
    IndexAt(q.Product(), xs, idx);
    IndexAt(q.Product(), ys, idx);
  }

  lemma ShapeLength(p: Lora)
    requires p.Constructed()
    ensures |p.Shape()| == |p.A.shape|
  {
  }

  // ----- what a tuple stands for

  lemma PairShapes(q: Lora, p: Lora)
    requires SameShapes(q, p) && p.Constructed()
    ensures q.Constructed() && |p.B.shape| >= 1 && q.Shape() == p.Shape() && q.Rank() == p.Rank()
  {
  }

  /** Whether indexing succeeds depends on shapes alone. */
  lemma OkByShapes(q: Lora, p: Lora, items: seq<Item>)
    requires SameShapes(q, p) && p.Constructed() && q.Constructed() && GetItems(p, items).Ok?
    ensures GetItems(q, items).Ok?
  {
    hide IndexedShape, Resolved, LeadItems, Wrappable, Index;
    var n := |p.A.shape|;
    var a, b := (LeadItems(items[..n - 2], p.A.shape[..n - 2]) + [FULL]) + [items[n - 1]],
        (items[..n - 2] + [items[n - 2]]) + [FULL];
    SameIndexShape(p.A, q.A, a);
    SameIndexShape(p.B, q.B, b);
  }

  lemma SameIndexShape(t: Tensor, u: Tensor, items: seq<Item>)
    requires t.shape == u.shape && Index(t, items).Ok?
    ensures Index(u, items).Ok? && Index(u, items).value.shape == Index(t, items).value.shape
  {
    hide *;
    IndexResolved(t, items);
    IndexResolved(u, items);
    IndexShape(t, items);
    IndexShape(u, items);
  }

  /** When the pair that `p[xs]` returns stands for `ys` of the product, for every pair of the shapes of `p`. */
  ghost predicate AlwaysStandsFor(p: Lora, xs: seq<Item>, ys: seq<Item>) {
    forall q: Lora :: q.Valid() && SameShapes(q, p) ==> GetItemsStandFor(q, xs, ys)
  }

  ghost predicate GetItemsStandFor(q: Lora, xs: seq<Item>, ys: seq<Item>) {
    q.Constructed() && GetItems(q, xs).Ok? && StandsFor(GetItems(q, xs).value, q, ys)
  }

  /** Items a pair can be indexed with: rows and columns sliced, and no leading slice selecting from B alone. */
  ghost predicate Proper(p: Lora, xs: seq<Item>) {
    && |xs| == |p.A.shape| == |p.B.shape| >= 2 && RowsAndColumnsSliced(xs)
    && AllKept(xs[..|xs| - 2], p.A.shape[..|xs| - 2], p.B.shape[..|xs| - 2])
  }

  lemma ProperStands(p: Lora, xs: seq<Item>)
    requires p.Valid() && p.Constructed() && GetItems(p, xs).Ok?
    ensures Proper(p, xs) <==> StandsFor(GetItems(p, xs).value, p, xs)
  {
    LeastTwo(p, xs);
    hide GetItems, AllKept, StandsFor, Lora.Valid, RowsAndColumnsSliced;
    GetItemsCommutes(p, xs);
  }

  lemma ProperByShapes(q: Lora, p: Lora, xs: seq<Item>)
    requires SameShapes(q, p) && Proper(p, xs)
    ensures Proper(q, xs)
  {
    hide AllKept, RowsAndColumnsSliced;
  }

  lemma StandsForBoth(v: Lora, q: Lora, xs: seq<Item>, ys: seq<Item>)
    requires q.Constructed() && StandsFor(v, q, xs)
    ensures StandsFor(v, q, ys) <==> Index(q.Product(), ys) == Index(q.Product(), xs)
    ensures v.Valid()
  {
    hide Index, Lora.Product, Lora.Valid;
  }

  lemma ItemsAlwaysIf(p: Lora, xs: seq<Item>, ys: seq<Item>)
    requires p.Valid() && p.Constructed() && GetItems(p, xs).Ok? && |p.B.shape| >= 1
    requires Proper(p, xs) && SameResults(xs, ys, p.Shape(), p.Rank())
    ensures AlwaysStandsFor(p, xs, ys)
  {
    hide *;
    forall q: Lora | q.Valid() && SameShapes(q, p) ensures GetItemsStandFor(q, xs, ys) {
      PairShapes(q, p);
      OkByShapes(q, p, xs);
      ProperByShapes(q, p, xs);
      ProperStands(q, xs);
      SameResultsIndex(q, xs, ys);
      StandsForBoth(GetItems(q, xs).value, q, xs, ys);
      StandForIs(q, xs, ys);
    }
    AlwaysIs(p, xs, ys);
  }

  lemma AlwaysIs(p: Lora, xs: seq<Item>, ys: seq<Item>)
    ensures AlwaysStandsFor(p, xs, ys) <==>
            forall q: Lora :: q.Valid() && SameShapes(q, p) ==> GetItemsStandFor(q, xs, ys)
  {
    hide GetItemsStandFor, SameShapes, Lora.Valid;
  }

  lemma StandForIs(q: Lora, xs: seq<Item>, ys: seq<Item>)
    ensures GetItemsStandFor(q, xs, ys) <==>
            q.Constructed() && GetItems(q, xs).Ok? && StandsFor(GetItems(q, xs).value, q, ys)
  {
    hide GetItems, StandsFor, Lora.Constructed;
  }

  /** If the result is a valid pair, columns are sliced and rows are, the items are proper. */
  lemma ValidMeansProper(p: Lora, xs: seq<Item>)
    requires p.Valid() && p.Constructed() && GetItems(p, xs).Ok? && GetItems(p, xs).value.Valid()
    requires |xs| >= 1 && xs[|xs| - 1].Slice?
    ensures Proper(p, xs)
  {
    LeastTwo(p, xs);
    SplitItems2(xs);
    var n := |xs|;
    var li, row, col := xs[..n - 2], xs[n - 2], xs[n - 1];
    hide GetItems, AllKept, Lora.Valid;
    RowSliced(p, li, row, col);
    StandsForMeansKept(p, li, row, col);
  }

  /** With sliced columns a result needs sliced rows too, or its parts would differ in their number of dimensions. */
  lemma RowSliced(p: Lora, li: seq<Item>, row: Item, col: Item)
    requires p.Valid() && GetItems(p, (li + [row]) + [col]).Ok? && col.Slice?
    ensures row.Slice?
  {
    GetItemsResolved(p, li, row, col);
    ShapeSplit(p);
    var q := GetItems(p, (li + [row]) + [col]).value;
    assert |q.A.shape| == |q.B.shape|;
    hide GetItems, Resolve, Resolved, Index, LeadItems, Wrappable, Lora.Product, Lora.Valid, IndexedShape;
    var n := |p.A.shape|;
    var al, bl, c, rows, r := p.A.shape[..n - 2], p.B.shape[..n - 2], p.A.shape[n - 1], p.B.shape[n - 2], p.Rank();
    IndexShape(p.A, (LeadItems(li, al) + [FULL]) + [col]);
    IndexShape(p.B, (li + [row]) + [FULL]);
    LeadLength(li, al, bl);
    TailLength(LeadItems(li, al), al, FULL, r, col, c);
    TailLength(li, bl, row, rows, FULL, r);
  }

  lemma ItemsAlwaysOnlyIf(p: Lora, xs: seq<Item>, ys: seq<Item>)
    requires p.Valid() && p.Constructed() && GetItems(p, xs).Ok? && |p.B.shape| >= 1 && AlwaysStandsFor(p, xs, ys)
    requires xs == ys || (|xs| >= 1 && xs[|xs| - 1].Slice?)
    ensures Proper(p, xs) && SameResults(xs, ys, p.Shape(), p.Rank())
  {
    hide *;
    AlwaysIs(p, xs, ys);
    ShapesSelf(p);
    StandForIs(p, xs, ys);
    var v := GetItems(p, xs).value;
    StandsForValid(v, p, ys);
    if xs != ys { ValidMeansProper(p, xs); }
    ProperStands(p, xs);
    StandsForBoth(v, p, xs, ys);
    StandsResolved(v, p, xs);
    StandsResolved(v, p, ys);
    if !SameResults(xs, ys, p.Shape(), p.Rank()) {
      var q := SomeDiffers(p, xs, ys);
      StandForIs(q, xs, ys);
      ProperByShapes(q, p, xs);
      ProperStands(q, xs);
      StandsForBoth(GetItems(q, xs).value, q, xs, ys);
    }
  }

  lemma StandsResolved(v: Lora, p: Lora, items: seq<Item>)
    requires p.Constructed() && StandsFor(v, p, items)
    ensures Resolved(items, p.Shape())
  {
    IndexResolved(p.Product(), items);
    ProductShape(p);
    hide Resolved, Index, Lora.Product, Lora.Valid, Lora.Shape;
  }

  /**
   * An ellipsis before the end is expanded by the number of the other entries, not by the number of missing
   * dimensions. So, over all pairs of given shapes for which it returns, the result stands for what the tuple means
   * exactly when the items written are proper and select in each dimension what the items meant do, or there is
   * nothing to select. Beyond the tensor's dimensions it is an error.
   */
  lemma EllipsisExactly(p: Lora, pre: seq<Item>, post: seq<Item>)
    requires p.Valid() && p.Constructed() && post != [] && GetTuple(p, WithEllipsis(pre, post)).Ok?
    ensures |p.B.shape| >= 1 && 2 * (|pre| + |post|) <= |p.A.shape|
    ensures var (xs, ys) := (Padded(Written(pre, post), |p.A.shape|), Meant(pre, post, |p.A.shape|));
            AlwaysMeant(p, pre, post) <==> Proper(p, xs) && SameResults(xs, ys, p.Shape(), p.Rank())
  {
    hide *;
    EllipsisExpands(p, pre, post);
    ShapesSelf(p);
    var n := |p.A.shape|;
    var xs, ys := Padded(Written(pre, post), n), Meant(pre, post, n);
    AlwaysItems(p, pre, post);
    WrittenEnds(pre, post, n);
    if Proper(p, xs) && SameResults(xs, ys, p.Shape(), p.Rank()) { ItemsAlwaysIf(p, xs, ys); }
    if AlwaysStandsFor(p, xs, ys) { ItemsAlwaysOnlyIf(p, xs, ys); }
  }

  /** Every pair of the shapes of `p`, indexed with the tuple, gives a pair that stands for what the tuple means. */
  ghost predicate AlwaysMeant(p: Lora, pre: seq<Item>, post: seq<Item>)
    requires |pre| + |post| <= |p.A.shape|
  {
    forall q: Lora :: q.Valid() && SameShapes(q, p) ==>
        TupleStandsFor(q, WithEllipsis(pre, post), Meant(pre, post, |p.A.shape|))
  }

  ghost predicate TupleStandsFor(q: Lora, entries: seq<Entry>, items: seq<Item>) {
    q.Constructed() && GetTuple(q, entries).Ok? && StandsFor(GetTuple(q, entries).value, q, items)
  }

  lemma AlwaysItems(p: Lora, pre: seq<Item>, post: seq<Item>)
    requires p.Constructed() && post != [] && 2 * (|pre| + |post|) <= |p.A.shape|
    ensures var (xs, ys) := (Padded(Written(pre, post), |p.A.shape|), Meant(pre, post, |p.A.shape|));
            AlwaysMeant(p, pre, post) <==> AlwaysStandsFor(p, xs, ys)
  {
    hide GetTuple, GetItems, WithEllipsis, Written, Meant, Padded, StandsFor, Lora.Valid, Lora.Constructed;
    var n := |p.A.shape|;
    var es, xs, ys := WithEllipsis(pre, post), Padded(Written(pre, post), n), Meant(pre, post, n);
    forall q: Lora | q.Valid() && SameShapes(q, p) ensures TupleStandsFor(q, es, ys) <==> GetItemsStandFor(q, xs, ys) {
      PairShapes(q, p);
      EllipsisExpands(q, pre, post);
    }
  }

  lemma WrittenEnds(pre: seq<Item>, post: seq<Item>, n: nat)
    requires post != [] && 2 * (|pre| + |post|) <= n
    ensures var (xs, ys) := (Padded(Written(pre, post), n), Meant(pre, post, n));
            xs == ys || (|xs| >= 1 && xs[|xs| - 1].Slice?)
  {
  }

  /** One ellipsis at the end of a tuple changes nothing; the result stands for what both mean for proper items. */
  lemma TrailingEllipsis(p: Lora, items: seq<Item>)
    requires p.Valid() && p.Constructed() && items != [] && GetTuple(p, Justs(items) + [Ellipsis]).Ok?
    ensures |items| <= |p.A.shape| && GetTuple(p, Justs(items)) == GetTuple(p, Justs(items) + [Ellipsis])
    ensures StandsFor(GetTuple(p, Justs(items) + [Ellipsis]).value, p, Meant(items, [], |p.A.shape|)) <==>
            Proper(p, Meant(items, [], |p.A.shape|))
  {
    hide *;
    TrailingItems(p, items);
    if |items| > |p.A.shape| { TooManyItems(p, items); }
    MeantTrailing(items, |p.A.shape|);
    ProperStands(p, Padded(items, |p.A.shape|));
  }

  lemma TrailingItems(p: Lora, items: seq<Item>)
    requires p.Constructed() && items != []
    ensures GetTuple(p, Justs(items) + [Ellipsis]) == GetTuple(p, Justs(items)) ==
            GetItems(p, Padded(items, |p.A.shape|))
  {
    hide GetItems, Padded;
    ExpandJusts(items, |items| - 1);
    assert (Justs(items) + [Ellipsis])[..|items|] == Justs(items);
  }

  lemma MeantTrailing(items: seq<Item>, n: nat)
    requires |items| <= n
    ensures Meant(items, [], n) == Padded(items, n)
  {
  }

  /** p[..., 0:1] in four dimensions: the slice is taken of the second dimension instead of the last. */
  lemma EllipsisFails()
    ensures var (p, post) := (Lora(Blank([1, 1, 1, 2]), Blank([1, 2, 1, 1])), [Slice(Some(0), Some(1), 1)]);
            && p.Valid() && p.Constructed() && GetTuple(p, WithEllipsis([], post)).Ok?
            && !StandsFor(GetTuple(p, WithEllipsis([], post)).value, p, Meant([], post, 4))
  {
    BlankPair([1, 1, 1, 2], [1, 2, 1, 1]);
    var p, x := Lora(Blank([1, 1, 1, 2]), Blank([1, 2, 1, 1])), Slice(Some(0), Some(1), 1);
    FirstOfTwo();
    FourShape(p);
    var xs, ys := ([FULL, x] + [FULL]) + [FULL], ([FULL, FULL] + [FULL]) + [x];
    FourWritten(x, xs, ys);
    FourSucceeds(p, x);
    hide *;
    EllipsisExpands(p, [], [x]);
    if StandsFor(GetItems(p, xs).value, p, ys) {
      var v := GetItems(p, xs).value;
      StandsForValid(v, p, ys);
      ValidMeansProper(p, xs);
      ProperStands(p, xs);
      StandsForBoth(v, p, xs, ys);
      IndexOk(v, p, xs);
      ProductShape(p);
      LastCount(p.Product(), [FULL, x], [1, 2], FULL, 1, FULL, 2);
      LastCount(p.Product(), [FULL, FULL], [1, 2], FULL, 1, x, 2);
    }
  }

  lemma IndexOk(v: Lora, p: Lora, xs: seq<Item>)
    requires p.Constructed() && StandsFor(v, p, xs)
    ensures Index(p.Product(), xs).Ok?
  {
    hide Index, Lora.Product, Lora.Valid;
  }

  lemma FourSucceeds(p: Lora, x: Item)
    requires p.Valid() && p.A.shape == [1, 1, 1, 2] && p.B.shape == [1, 2, 1, 1] && x.Slice? && Resolve(x, 2).Ok?
    ensures GetItems(p, ([FULL, x] + [FULL]) + [FULL]).Ok?
  {
    FullSpan(1);
    FullSpan(2);
    assert p.A.shape[..2] == [1, 1] && p.B.shape[..2] == [1, 2];
    hide Resolve, Lora.Valid, GetItems;
    GetItemsSucceeds(p, [FULL, x], FULL, FULL);
  }

  lemma FourWritten(x: Item, xs: seq<Item>, ys: seq<Item>)
    requires xs == ([FULL, x] + [FULL]) + [FULL] && ys == ([FULL, FULL] + [FULL]) + [x]
    ensures |[x]| == 1 && |xs| == 4 && xs[3] == FULL && FULL.Slice?
    ensures Padded(Written([], [x]), 4) == xs && Meant([], [x], 4) == ys
  {
  }

  lemma FourShape(p: Lora)
    requires p.Constructed() && p.A.shape == [1, 1, 1, 2] && p.B.shape == [1, 2, 1, 1]
    ensures p.Shape() == ([1, 2] + [1]) + [2] && |p.A.shape| == 4
    ensures Resolve(FULL, 2) == Ok(Span(0, 1, 2))
  {
  }

  lemma LastCount(t: Tensor, li: seq<Item>, ls: seq<nat>, x: Item, a: nat, y: Item, b: nat)
    requires t.shape == (ls + [a]) + [b] && |li| == |ls| && x.Slice? && y.Slice? && Index(t, (li + [x]) + [y]).Ok?
    ensures Resolve(y, b).Ok? && Resolve(y, b).value.Span?
    ensures var s := Index(t, (li + [x]) + [y]).value.shape; |s| > 0 && s[|s| - 1] == Resolve(y, b).value.count
  {
    hide Index, Resolve, IndexedShape, Resolved;
    IndexResolved(t, (li + [x]) + [y]);
    IndexShape(t, (li + [x]) + [y]);
    TwoSlices(li, ls, x, a, y, b);
  }
}
