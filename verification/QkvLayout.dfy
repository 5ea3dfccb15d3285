/** The query/key/value re-layouts of FalconModel and GPTNeoXModel: all query rows, then all keys, then all values. */
module QkvLayout {
  import opened Bits
  import opened Tensors
  import opened LoraTensor
  import opened LoraIndexing
  import opened LoraGetItem
  import opened LoraCat
  import opened HeadLayout

  // ----- indexing the leading dimensions only

  /** Trailing full slices leave the trailing dimensions alone. */
  lemma {:induction false} FullsTail(head: seq<Item>, hs: seq<nat>, s: seq<nat>, u: seq<nat>, i: seq<nat>)
    requires |head| == |hs| && Resolved(head, hs) && |u| == |IndexedShape(head, hs)| && |i| == |s|
    ensures Resolved(head + Fulls(|s|), hs + s)
    ensures IndexedShape(head + Fulls(|s|), hs + s) == IndexedShape(head, hs) + s
    ensures SourceOf(head + Fulls(|s|), hs + s, u + i) == SourceOf(head, hs, u) + i
  {
    hide Resolve, Resolved, IndexedShape, SourceOf;
    var n := |s|;
    if n == 0 {
      assert head + Fulls(0) == head && hs + s == hs && u + i == u;
      assert IndexedShape(head, hs) + s == IndexedShape(head, hs) && SourceOf(head, hs, u) + i == SourceOf(head, hs, u);
    } else {
      var t, j, d, k := s[..n - 1], i[..n - 1], s[n - 1], i[n - 1];
      FullsAppend(n - 1);
      assert s == t + [d] && i == j + [k];
      assert head + Fulls(n) == (head + Fulls(n - 1)) + [FULL] && hs + s == (hs + t) + [d] && u + i == (u + j) + [k];
      FullsTail(head, hs, t, u, j);
      FullsTailStep(head + Fulls(n - 1), hs + t, d, u + j, k);
      assert (IndexedShape(head, hs) + t) + [d] == IndexedShape(head, hs) + s;
      assert (SourceOf(head, hs, u) + j) + [k] == SourceOf(head, hs, u) + i;
    }
  }

  lemma FullsTailStep(head: seq<Item>, hs: seq<nat>, d: nat, u: seq<nat>, k: nat)
    requires |head| == |hs| && Resolved(head, hs) && |u| == |IndexedShape(head, hs)|
    ensures Resolved(head + [FULL], hs + [d])
    ensures IndexedShape(head + [FULL], hs + [d]) == IndexedShape(head, hs) + [d]
    ensures SourceOf(head + [FULL], hs + [d], u + [k]) == SourceOf(head, hs, u) + [k]
  {
    FullSpan(d);
    hide Resolve, Resolved, IndexedShape, SourceOf;
    ResolvedAppend(head, hs, FULL, d);
    IndexedAppend(head, hs, FULL, d);
    SourceAppend(head, hs, FULL, d, u, k);
  }

  /** A group dimension kept whole and one item for the parts. */
  lemma GroupAndPart(item: Item, g: nat, c: nat)
    requires Resolve(item, c).Ok?
    ensures Resolved([FULL, item], [g, c])
    ensures item.Slice? ==> Resolve(item, c).value.Span?
    ensures IndexedShape([FULL, item], [g, c]) == if item.Slice? then [g, Resolve(item, c).value.count] else [g]
  {
    FullSpan(g);
    PlaceKind(item, c);
    assert [FULL, item] == ([] + [FULL]) + [item] && [g, c] == ([] + [g]) + [c];
    hide Resolve, Resolved, IndexedShape;
    NothingIndexed();
    ResolvedAppend([], [], FULL, g);
    IndexedAppend([], [], FULL, g);
    ResolvedAppend([] + [FULL], [] + [g], item, c);
    IndexedAppend([] + [FULL], [] + [g], item, c);
  }

  lemma GroupSource(g: nat, x: nat)
    ensures Resolved([] + [FULL], [] + [g]) && IndexedShape([] + [FULL], [] + [g]) == [g]
    ensures SourceOf([] + [FULL], [] + [g], [x]) == [x]
  {
    FullSource([g], [x]);
    assert Fulls(1) == [] + [FULL] && [] + [g] == [g];
    hide *;
  }

  lemma SliceSource(item: Item, g: nat, c: nat, x: nat, y: nat)
    requires item.Slice? && Resolve(item, c).Ok? && Resolved([FULL, item], [g, c])
    ensures |IndexedShape([FULL, item], [g, c])| == 2
    ensures SourceOf([FULL, item], [g, c], [x, y]) == [x, Step(Resolve(item, c).value, y)]
  {
    GroupSource(g, x);
    PlaceKind(item, c);
    assert [FULL, item] == ([] + [FULL]) + [item] && [g, c] == ([] + [g]) + [c] && [x, y] == [x] + [y];
    hide Resolve, Resolved, IndexedShape, SourceOf;
    SourceAppend([] + [FULL], [] + [g], item, c, [x], y);
  }

  lemma PickSource(item: Item, g: nat, c: nat, x: nat)
    requires item.Pick? && Resolve(item, c).Ok? && Resolved([FULL, item], [g, c])
    ensures |IndexedShape([FULL, item], [g, c])| == 1 && Resolve(item, c).value.Fixed?
    ensures SourceOf([FULL, item], [g, c], [x]) == [x, Resolve(item, c).value.pos]
  {
    GroupSource(g, x);
    PlaceKind(item, c);
    assert [FULL, item] == ([] + [FULL]) + [item] && [g, c] == ([] + [g]) + [c];
    hide Resolve, Resolved, IndexedShape, SourceOf;
    SourcePick([] + [FULL], [] + [g], item, c, [x]);
  }

  // ----- one part of every group

  /** u[:, item] of a tensor viewed as groups, parts, rows of a part, and columns. */
  function PartOf(u: Tensor, item: Item): Result<Tensor> {
    if |u.shape| < 2 then Err(IndexOutOfRange) else Index(u, [FULL, item] + Fulls(|u.shape| - 2))
  }

  function ReshapeChecked(t: Result<Tensor>, shape: seq<nat>): Result<Tensor> {
    match t
    case Err(e) => Err(e)
    case Ok(s) => if Prod(shape) == |s.data| then Ok(Reshape(s, shape)) else Err(ShapeMismatch)
  }

  lemma SplitTwo(h: nat, a: nat, b: nat, rest: seq<nat>)
    ensures Split(h, a, b, rest) == [h, a] + ([b] + rest) && |[b] + rest| == |Split(h, a, b, rest)| - 2
  {
  }

  lemma SlicePart(u: Tensor, item: Item, lo: nat, n: nat, g: nat, c: nat, hd: nat, rest: seq<nat>)
    requires u.shape == Split(g, c, hd, rest) && item.Slice? && Resolve(item, c) == Ok(Span(lo, 1, n))
    ensures PartOf(u, item).Ok? && PartOf(u, item).value.Valid() && PartOf(u, item).value.shape == Split(g, n, hd, rest)
  {
    GroupAndPart(item, g, c);
    SplitTwo(g, c, hd, rest);
    SplitTwo(g, n, hd, rest);
    hide *;
    FullsTail([FULL, item], [g, c], [hd] + rest, IndexedShape([FULL, item], [g, c]), [hd] + rest);
    IndexResolved(u, [FULL, item] + Fulls(|u.shape| - 2));
    IndexShape(u, [FULL, item] + Fulls(|u.shape| - 2));
    PartIs(u, item);
  }

  lemma PartIs(u: Tensor, item: Item)
    requires |u.shape| >= 2
    ensures PartOf(u, item) == Index(u, [FULL, item] + Fulls(|u.shape| - 2))
  {
  }

  lemma SlicePartAt(u: Tensor, item: Item, lo: nat, n: nat, g: nat, c: nat, hd: nat, rest: seq<nat>,
                    x: nat, y: nat, z: nat, i: seq<nat>)
    requires u.shape == Split(g, c, hd, rest) && item.Slice? && Resolve(item, c) == Ok(Span(lo, 1, n))
    requires x < g && y < n && z < hd && InRange(rest, i)
    ensures PartOf(u, item).Ok? && PartOf(u, item).value.At(Split(x, y, z, i)) == u.At(Split(x, lo + y, z, i))
  {
    hide *;
    SlicePart(u, item, lo, n, g, c, hd, rest);
    SplitTwo(g, c, hd, rest);
    SliceIndex(item, lo, n, g, c, hd, rest, x, y, z, i);
    SplitInRange(g, n, hd, rest, x, y, z, i);
    IndexAt(u, [FULL, item] + Fulls(|u.shape| - 2), Split(x, y, z, i));
    PartIs(u, item);
  }

  lemma SliceIndex(item: Item, lo: nat, n: nat, g: nat, c: nat, hd: nat, rest: seq<nat>,
                   x: nat, y: nat, z: nat, i: seq<nat>)
    requires item.Slice? && Resolve(item, c) == Ok(Span(lo, 1, n)) && InRange(rest, i)
    ensures var (items, shape) := ([FULL, item] + Fulls(|[hd] + rest|), Split(g, c, hd, rest));
            && Resolved(items, shape) && IndexedShape(items, shape) == Split(g, n, hd, rest)
            && SourceOf(items, shape, Split(x, y, z, i)) == Split(x, lo + y, z, i)
  {
    GroupAndPart(item, g, c);
    SplitTwo(g, c, hd, rest);
    SplitTwo(g, n, hd, rest);
    SplitTwo(x, y, z, i);
    SplitTwo(x, lo + y, z, i);
    InRangeLength(rest, i);
    assert Step(Span(lo, 1, n), y) == lo + y;
    hide *;
    SliceSource(item, g, c, x, y);
    FullsTail([FULL, item], [g, c], [hd] + rest, [x, y], [z] + i);
  }

  lemma PickPart(u: Tensor, item: Item, g: nat, c: nat, hd: nat, rest: seq<nat>)
    requires u.shape == Split(g, c, hd, rest) && item.Pick? && Resolve(item, c).Ok?
    ensures PartOf(u, item).Ok? && PartOf(u, item).value.Valid() && PartOf(u, item).value.shape == [g] + ([hd] + rest)
  {
    GroupAndPart(item, g, c);
    SplitTwo(g, c, hd, rest);
    hide *;
    FullsTail([FULL, item], [g, c], [hd] + rest, IndexedShape([FULL, item], [g, c]), [hd] + rest);
    IndexResolved(u, [FULL, item] + Fulls(|u.shape| - 2));
    IndexShape(u, [FULL, item] + Fulls(|u.shape| - 2));
    PartIs(u, item);
  }

  lemma PickPartAt(u: Tensor, item: Item, pos: nat, g: nat, c: nat, hd: nat, rest: seq<nat>, x: nat, z: nat,
      i: seq<nat>)
    requires u.shape == Split(g, c, hd, rest) && item.Pick? && Resolve(item, c) == Ok(Fixed(pos))
    requires x < g && z < hd && InRange(rest, i)
    ensures PartOf(u, item).Ok? && PartOf(u, item).value.At([x] + ([z] + i)) == u.At(Split(x, pos, z, i))
  {
    PickPart(u, item, g, c, hd, rest);
    GroupAndPart(item, g, c);
    SplitTwo(g, c, hd, rest);
    SplitTwo(x, pos, z, i);
    InRangeFront(hd, rest, z, i);
    InRangeFront(g, [hd] + rest, x, [z] + i);
    InRangeLength(rest, i);
    hide *;
    PickSource(item, g, c, x);
    FullsTail([FULL, item], [g, c], [hd] + rest, [x], [z] + i);
    IndexAt(u, [FULL, item] + Fulls(|u.shape| - 2), [x] + ([z] + i));
    PartIs(u, item);
  }

  // ----- a part as a block of rows

  /** `s` holds parts lo, .., lo + n - 1 of every group of `t`, flattened to rows. */
  ghost predicate Block(s: Tensor, t: Tensor, g: nat, c: nat, lo: nat, n: nat, hd: nat, rest: seq<nat>) {
    && s.Valid() && s.shape == [Rows(g, n, hd)] + rest
    && forall x: nat, y: nat, z: nat, i :: x < g && y < n && z < hd && InRange(rest, i) ==>
         s.At([Row(x, n, y, hd, z)] + i) == t.At([Row(x, c, lo + y, hd, z)] + i)
  }

  lemma SliceBlock(t: Tensor, item: Item, lo: nat, n: nat, g: nat, c: nat, hd: nat, rest: seq<nat>)
    requires t.Valid() && t.shape == [Rows(g, c, hd)] + rest && lo + n <= c
    requires item.Slice? && Resolve(item, c) == Ok(Span(lo, 1, n))
    ensures var r := ReshapeChecked(PartOf(Reshape(t, Split(g, c, hd, rest)), item), [Rows(g, n, hd)] + rest);
            r.Ok? && Block(r.value, t, g, c, lo, n, hd, rest)
  {
    var u := Reshape(t, Split(g, c, hd, rest));
    ReshapeIs(t, Split(g, c, hd, rest));
    SlicePart(u, item, lo, n, g, c, hd, rest);
    SplitProd(g, n, hd, rest);
    hide Rows, Row, Split, PartOf, Resolve, Prod, InRange, Tensor.At;
    var s := PartOf(u, item).value;
    var r := Reshape(s, [Rows(g, n, hd)] + rest);
    assert r.Valid();
    hide Tensor.Valid;
    forall x: nat, y: nat, z: nat, i | x < g && y < n && z < hd && InRange(rest, i)
      ensures r.At([Row(x, n, y, hd, z)] + i) == t.At([Row(x, c, lo + y, hd, z)] + i)
    {
      SliceRow(t, u, s, r, item, lo, n, g, c, hd, rest, x, y, z, i);
    }
  }

  lemma SliceRow(t: Tensor, u: Tensor, s: Tensor, r: Tensor, item: Item, lo: nat, n: nat, g: nat, c: nat, hd: nat,
                 rest: seq<nat>, x: nat, y: nat, z: nat, i: seq<nat>)
    requires t.Valid() && t.shape == [Rows(g, c, hd)] + rest && lo + n <= c && u.data == t.data
    requires item.Slice? && Resolve(item, c) == Ok(Span(lo, 1, n)) && u.shape == Split(g, c, hd, rest)
    requires PartOf(u, item) == Ok(s) && s.shape == Split(g, n, hd, rest)
    requires r.Valid() && r.data == s.data && r.shape == [Rows(g, n, hd)] + rest
    requires x < g && y < n && z < hd && InRange(rest, i)
    ensures r.At([Row(x, n, y, hd, z)] + i) == t.At([Row(x, c, lo + y, hd, z)] + i)
  {
    hide *;
    SlicePartAt(u, item, lo, n, g, c, hd, rest, x, y, z, i);
    SplitAt(r, s, g, n, hd, rest, x, y, z, i);
    SplitAt(t, u, g, c, hd, rest, x, lo + y, z, i);
  }

  /** Two dimensions flattened to rows. */
  lemma PairAt(t: Tensor, u: Tensor, g: nat, hd: nat, rest: seq<nat>, x: nat, z: nat, i: seq<nat>)
    requires t.Valid() && t.data == u.data && x < g && z < hd && InRange(rest, i)
    requires t.shape == [Rows(g, 1, hd)] + rest && u.shape == [g] + ([hd] + rest)
    ensures u.At([x] + ([z] + i)) == t.At([Row(x, 1, 0, hd, z)] + i)
  {
    SplitInRange(g, 1, hd, rest, x, 0, z, i);
    InRangeFront(hd, rest, z, i);
    InRangeFront(g, [hd] + rest, x, [z] + i);
    RavelFront(Rows(g, 1, hd), rest, Row(x, 1, 0, hd, z), i);
    RavelFront(hd, rest, z, i);
    RavelFront(g, [hd] + rest, x, [z] + i);
    OnePart(x, hd, z, Prod(rest), Ravel(rest, i));
    hide Ravel, InRange, Row, Prod, Rows;
  }

  lemma OnePart(x: nat, hd: nat, z: nat, p: nat, r: nat)
    ensures x * (hd * p) + (z * p + r) == Row(x, 1, 0, hd, z) * p + r
  {
    assert x * (hd * p) == x * hd * p;
    assert (x * hd + z) * p == x * hd * p + z * p;
  }

  lemma OneFactor(g: nat, hd: nat, p: nat)
    ensures g * (hd * p) == Rows(g, 1, hd) * p
  {
    assert g * (hd * p) == g * hd * p;
  }

  lemma PairProd(g: nat, hd: nat, rest: seq<nat>)
    ensures Prod([g] + ([hd] + rest)) == Prod([Rows(g, 1, hd)] + rest)
  {
    RavelFront(hd, rest, 0, rest);
    RavelFront(g, [hd] + rest, 0, [hd] + rest);
    RavelFront(Rows(g, 1, hd), rest, 0, rest);
    hide *;
    OneFactor(g, hd, Prod(rest));
  }

  lemma PickBlock(t: Tensor, item: Item, pos: nat, g: nat, c: nat, hd: nat, rest: seq<nat>)
    requires t.Valid() && t.shape == [Rows(g, c, hd)] + rest && pos < c
    requires item.Pick? && Resolve(item, c) == Ok(Fixed(pos))
    ensures var r := ReshapeChecked(PartOf(Reshape(t, Split(g, c, hd, rest)), item), [Rows(g, 1, hd)] + rest);
            r.Ok? && Block(r.value, t, g, c, pos, 1, hd, rest)
  {
    var u := Reshape(t, Split(g, c, hd, rest));
    ReshapeIs(t, Split(g, c, hd, rest));
    PickPart(u, item, g, c, hd, rest);
    PairProd(g, hd, rest);
    hide Rows, Row, Split, PartOf, Resolve, Prod, InRange, Tensor.At;
    var s := PartOf(u, item).value;
    var r := Reshape(s, [Rows(g, 1, hd)] + rest);
    assert r.Valid();
    hide Tensor.Valid;
    forall x: nat, y: nat, z: nat, i | x < g && y < 1 && z < hd && InRange(rest, i)
      ensures r.At([Row(x, 1, y, hd, z)] + i) == t.At([Row(x, c, pos + y, hd, z)] + i)
    {
      assert y == 0;
      PickPartAt(u, item, pos, g, c, hd, rest, x, z, i);
      PairAt(r, s, g, hd, rest, x, z, i);
      SplitAt(t, u, g, c, hd, rest, x, pos, z, i);
    }
  }

  // ----- queries, keys and values joined

  ghost predicate Blocks(q: Tensor, k: Tensor, v: Tensor, t: Tensor, g: nat, n: nat, hd: nat, rest: seq<nat>) {
    && Block(q, t, g, n + 2, 0, n, hd, rest) && Block(k, t, g, n + 2, n, 1, hd, rest)
    && Block(v, t, g, n + 2, n + 1, 1, hd, rest)
  }

  lemma BlockRow(s: Tensor, t: Tensor, g: nat, c: nat, lo: nat, n: nat, hd: nat, rest: seq<nat>,
                 x: nat, y: nat, z: nat, i: seq<nat>)
    requires Block(s, t, g, c, lo, n, hd, rest) && x < g && y < n && z < hd && InRange(rest, i)
    ensures s.At([Row(x, n, y, hd, z)] + i) == t.At([Row(x, c, lo + y, hd, z)] + i)
    ensures InRange(s.shape, [Row(x, n, y, hd, z)] + i)
  {
    SplitInRange(g, n, hd, rest, x, y, z, i);
    hide Row, Rows, InRange, Tensor.At, Tensor.Valid;
  }

  /** Three blocks of rows joined. */
  lemma CatThree(q: Tensor, k: Tensor, v: Tensor, a: nat, b: nat, c: nat, rest: seq<nat>)
    requires q.Valid() && k.Valid() && v.Valid()
    requires q.shape == [a] + rest && k.shape == [b] + rest && v.shape == [c] + rest
    ensures Cat([q, k, v]).Ok? && Cat([q, k, v]).value.Valid() && Cat([q, k, v]).value.shape == [a + b + c] + rest
    ensures Joinable(q, k) && Joinable(Cat2(q, k), v) && Cat([q, k, v]).value == Cat2(Cat2(q, k), v)
  {
    hide Cat, Tensor.Valid;
    CatOne(q);
    CatSnocBack([q], k);
    assert [q] + [k] == [q, k] && [q, k] + [v] == [q, k, v];
    Cat2Valid(q, k);
    CatSnocBack([q, k], v);
    Cat2Valid(Cat2(q, k), v);
  }

  /** Which part of the joined rows an index falls into. */
  lemma CatThreeAt(q: Tensor, k: Tensor, v: Tensor, a: nat, b: nat, c: nat, rest: seq<nat>, r: nat, i: seq<nat>)
    requires q.Valid() && k.Valid() && v.Valid() && InRange(rest, i) && r < a + b + c
    requires q.shape == [a] + rest && k.shape == [b] + rest && v.shape == [c] + rest
    requires Cat([q, k, v]).Ok?
    ensures var out := Cat([q, k, v]).value.At([r] + i);
            && (r < a ==> out == q.At([r] + i))
            && (a <= r < a + b ==> out == k.At([r - a] + i))
            && (a + b <= r ==> out == v.At([r - a - b] + i))
  {
    CatThree(q, k, v, a, b, c, rest);
    Cat2Valid(q, k);
    Cat2Shape(q, k, a, b, rest);
    InRangeFront(a + b + c, rest, r, i);
    hide *;
    var t := Cat2(q, k);
    Cat2At(t, v, a + b, c, rest, r, i);
    if r < a + b {
      InRangeFront(a + b, rest, r, i);
      Cat2At(q, k, a, b, rest, r, i);
    }
  }

  lemma Cat2Shape(t: Tensor, u: Tensor, a: nat, b: nat, rest: seq<nat>)
    requires t.shape == [a] + rest && u.shape == [b] + rest
    ensures Joinable(t, u) && Cat2(t, u).shape == [a + b] + rest
  {
  }

  lemma Cat2At(t: Tensor, u: Tensor, a: nat, b: nat, rest: seq<nat>, r: nat, i: seq<nat>)
    requires t.Valid() && u.Valid() && t.shape == [a] + rest && u.shape == [b] + rest
             && InRange([a + b] + rest, [r] + i)
    ensures Joinable(t, u)
    ensures r < a ==> Cat2(t, u).At([r] + i) == t.At([r] + i)
    ensures r >= a ==> Cat2(t, u).At([r] + i) == u.At([r - a] + i)
  {
    Cat2Shape(t, u, a, b, rest);
    hide Cat2, Tensor.Valid, Tensor.At, InRange;
    if r < a { Cat2Low(t, u, [r] + i); } else { Cat2High(t, u, [r] + i); assert Shifted([r] + i, a) == [r - a] + i; }
  }

  /** The part-`y` row that is number `r` among the rows of one part per group. */
  function SharedRow(n: nat, y: nat, hd: nat, r: nat): nat
    requires hd > 0
  {
    Row(r / hd, n + 2, y, hd, r % hd)
  }

  function QueryRow(n: nat, hd: nat, r: nat): nat
    requires hd > 0 && n > 0
  {
    Row(r / hd / n, n + 2, r / hd % n, hd, r % hd)
  }

  /** The source row of row `r` of the result. */
  function SourceRow(g: nat, n: nat, hd: nat, r: nat): nat
    requires hd > 0
  {
    var queries, keys := Rows(g, n, hd), Rows(g, 1, hd);
    if r < queries then (if n > 0 then QueryRow(n, hd, r) else 0)
    else if r < queries + keys then SharedRow(n, n, hd, r - queries)
    else SharedRow(n, n + 1, hd, r - queries - keys)
  }

  /** Where the row `z` of part `y` of group `x` goes. */
  function TargetRow(g: nat, n: nat, hd: nat, x: nat, y: nat, z: nat): nat {
    if y < n then Row(x, n, y, hd, z)
    else if y == n then Rows(g, n, hd) + Row(x, 1, 0, hd, z)
    else Rows(g, n, hd) + Rows(g, 1, hd) + Row(x, 1, 0, hd, z)
  }

  /**
   * Each source row is used exactly once: a row of the result comes from part `y` of some group, its target is itself,
   * and queries come before keys and keys before values.
   */
  lemma RowsOnce(g: nat, n: nat, hd: nat, x: nat, y: nat, z: nat)
    requires x < g && y < n + 2 && z < hd
    ensures TargetRow(g, n, hd, x, y, z) < Rows(g, n + 2, hd) == Rows(g, n, hd) + Rows(g, 1, hd) + Rows(g, 1, hd)
    ensures SourceRow(g, n, hd, TargetRow(g, n, hd, x, y, z)) == Row(x, n + 2, y, hd, z)
    ensures y < n <==> TargetRow(g, n, hd, x, y, z) < Rows(g, n, hd)
    ensures y <= n <==> TargetRow(g, n, hd, x, y, z) < Rows(g, n, hd) + Rows(g, 1, hd)
  {
    PartsTotal(g, n, hd);
    RowInRange(g, x, 1, 0, hd, z);
    QuotientUnique(Row(x, 1, 0, hd, z), hd, x, z);
    if y < n {
      RowInRange(g, x, n, y, hd, z);
      var r := Row(x, n, y, hd, z);
      QuotientUnique(r, hd, x * n + y, z);
      QuotientUnique(x * n + y, n, x, y);
      hide Row, Rows;
    } else {
      hide Row, Rows;
    }
  }

  lemma PartsTotal(g: nat, n: nat, hd: nat)
    ensures Rows(g, n + 2, hd) == Rows(g, n, hd) + Rows(g, 1, hd) + Rows(g, 1, hd)
  {
    assert g * (n + 2) == g * n + g + g;
    assert (g * n + g + g) * hd == g * n * hd + g * hd + g * hd;
  }

  /** Every row of the result is the target of one source row. */
  lemma TargetOnto(g: nat, n: nat, hd: nat, r: nat) returns (x: nat, y: nat, z: nat)
    requires r < Rows(g, n + 2, hd)
    ensures x < g && y < n + 2 && z < hd && TargetRow(g, n, hd, x, y, z) == r
  {
    PartsTotal(g, n, hd);
    var queries, keys := Rows(g, n, hd), Rows(g, 1, hd);
    if r < queries {
      x, y, z := RowSplit(g, n, hd, r);
    } else if r < queries + keys {
      x, y, z := RowSplit(g, 1, hd, r - queries);
      y := n;
    } else {
      x, y, z := RowSplit(g, 1, hd, r - queries - keys);
      y := n + 1;
    }
    hide Row, Rows;
  }

  /** The result of joining blocks, as a whole. */
  lemma JoinedShape(q: Tensor, k: Tensor, v: Tensor, t: Tensor, g: nat, n: nat, hd: nat, rest: seq<nat>)
    requires Blocks(q, k, v, t, g, n, hd, rest)
    ensures Cat([q, k, v]).Ok? && Cat([q, k, v]).value.Valid()
            && Cat([q, k, v]).value.shape == [Rows(g, n + 2, hd)] + rest
  {
    PartsTotal(g, n, hd);
    hide Rows, Cat, Tensor.Valid;
    CatThree(q, k, v, Rows(g, n, hd), Rows(g, 1, hd), Rows(g, 1, hd), rest);
  }

  /** The joined blocks hold, in each row, the source row. */
  lemma JoinedRow(q: Tensor, k: Tensor, v: Tensor, t: Tensor, g: nat, n: nat, hd: nat, rest: seq<nat>, r: nat,
      i: seq<nat>)
    requires Blocks(q, k, v, t, g, n, hd, rest) && r < Rows(g, n + 2, hd) && InRange(rest, i)
    ensures hd > 0 && Cat([q, k, v]).Ok? && Cat([q, k, v]).value.At([r] + i) == t.At([SourceRow(g, n, hd, r)] + i)
  {
    hide *;
    var x, y, z := TargetOnto(g, n, hd, r);
    RowsOnce(g, n, hd, x, y, z);
    JoinedShape(q, k, v, t, g, n, hd, rest);
    JoinedTarget(q, k, v, t, g, n, hd, rest, x, y, z, i);
  }

  lemma JoinedTarget(q: Tensor, k: Tensor, v: Tensor, t: Tensor, g: nat, n: nat, hd: nat, rest: seq<nat>,
                     x: nat, y: nat, z: nat, i: seq<nat>)
    requires Blocks(q, k, v, t, g, n, hd, rest) && x < g && y < n + 2 && z < hd && InRange(rest, i)
             && Cat([q, k, v]).Ok?
    ensures Cat([q, k, v]).value.At([TargetRow(g, n, hd, x, y, z)] + i) == t.At([Row(x, n + 2, y, hd, z)] + i)
  {
    hide *;
    BlocksShapes(q, k, v, t, g, n, hd, rest);
    RowsOnce(g, n, hd, x, y, z);
    TargetIs(g, n, hd, x, y, z);
    if y < n {
      BlockRow(q, t, g, n + 2, 0, n, hd, rest, x, y, z, i);
      CatThreeAt(q, k, v, Rows(g, n, hd), Rows(g, 1, hd), Rows(g, 1, hd), rest, Row(x, n, y, hd, z), i);
    } else if y == n {
      SharedTarget(k, t, g, n, y, hd, rest, x, z, i);
      CatSecond(q, k, v, Rows(g, n, hd), Rows(g, 1, hd), Rows(g, 1, hd), rest, Row(x, 1, 0, hd, z), i);
    } else {
      SharedTarget(v, t, g, n, y, hd, rest, x, z, i);
      CatThird(q, k, v, Rows(g, n, hd), Rows(g, 1, hd), Rows(g, 1, hd), rest, Row(x, 1, 0, hd, z), i);
    }
  }

  lemma SharedTarget(k: Tensor, t: Tensor, g: nat, n: nat, y: nat, hd: nat, rest: seq<nat>, x: nat, z: nat, i: seq<nat>)
    requires Block(k, t, g, n + 2, y, 1, hd, rest) && x < g && z < hd && InRange(rest, i)
    ensures Row(x, 1, 0, hd, z) < Rows(g, 1, hd)
    ensures k.At([Row(x, 1, 0, hd, z)] + i) == t.At([Row(x, n + 2, y, hd, z)] + i)
  {
    RowInRange(g, x, 1, 0, hd, z);
    hide *;
    BlockRow(k, t, g, n + 2, y, 1, hd, rest, x, 0, z, i);
  }

  lemma CatSecond(q: Tensor, k: Tensor, v: Tensor, a: nat, b: nat, c: nat, rest: seq<nat>, r: nat, i: seq<nat>)
    requires q.Valid() && k.Valid() && v.Valid() && InRange(rest, i) && r < b
    requires q.shape == [a] + rest && k.shape == [b] + rest && v.shape == [c] + rest
    requires Cat([q, k, v]).Ok?
    ensures Cat([q, k, v]).value.At([a + r] + i) == k.At([r] + i)
  {
    hide *;
    CatThreeAt(q, k, v, a, b, c, rest, a + r, i);
  }

  lemma CatThird(q: Tensor, k: Tensor, v: Tensor, a: nat, b: nat, c: nat, rest: seq<nat>, r: nat, i: seq<nat>)
    requires q.Valid() && k.Valid() && v.Valid() && InRange(rest, i) && r < c
    requires q.shape == [a] + rest && k.shape == [b] + rest && v.shape == [c] + rest
    requires Cat([q, k, v]).Ok?
    ensures Cat([q, k, v]).value.At([a + b + r] + i) == v.At([r] + i)
  {
    hide *;
    CatThreeAt(q, k, v, a, b, c, rest, a + b + r, i);
  }

  lemma BlocksShapes(q: Tensor, k: Tensor, v: Tensor, t: Tensor, g: nat, n: nat, hd: nat, rest: seq<nat>)
    requires Blocks(q, k, v, t, g, n, hd, rest)
    ensures q.Valid() && k.Valid() && v.Valid() && q.shape == [Rows(g, n, hd)] + rest
    ensures k.shape == [Rows(g, 1, hd)] + rest && v.shape == [Rows(g, 1, hd)] + rest
    ensures Block(q, t, g, n + 2, 0, n, hd, rest) && Block(k, t, g, n + 2, n, 1, hd, rest)
    ensures Block(v, t, g, n + 2, n + 1, 1, hd, rest)
  {
  }

  lemma TargetIs(g: nat, n: nat, hd: nat, x: nat, y: nat, z: nat)
    ensures y < n ==> TargetRow(g, n, hd, x, y, z) == Row(x, n, y, hd, z)
    ensures y == n ==> TargetRow(g, n, hd, x, y, z) == Rows(g, n, hd) + Row(x, 1, 0, hd, z)
    ensures y > n ==> TargetRow(g, n, hd, x, y, z) == Rows(g, n, hd) + Rows(g, 1, hd) + Row(x, 1, 0, hd, z)
  {
    hide Row, Rows;
  }

  // ----- the two models

  /** A missing or zero group count is 1. */
  function Groups(kvHeads: Option<nat>): (g: nat)
    ensures g > 0
  {
    if kvHeads.Some? && kvHeads.value > 0 then kvHeads.value else 1
  }

  lemma GroupsIs(g: nat, kvHeads: Option<nat>)
    requires g > 0 && (kvHeads == Some(g) || (g == 1 && (kvHeads == None || kvHeads == Some(0))))
    ensures g == Groups(kvHeads)
  {
  }

  /** One part of every group, as `rows` rows. */
  function PartRows(t: Tensor, g: nat, parts: nat, hd: nat, rest: seq<nat>, item: Item, rows: nat): Result<Tensor> {
    ReshapeChecked(PartOf(Reshape(t, Split(g, parts, hd, rest)), item), [rows] + rest)
  }

  function Join(q: Result<Tensor>, k: Result<Tensor>, v: Result<Tensor>): Result<Tensor> {
    if q.Err? || k.Err? || v.Err? then Err(ShapeMismatch) else Cat([q.value, k.value, v.value])
  }

  const QUERIES := Slice(None, Some(-2), 1)
  const KEY := Slice(Some(-2), Some(-1), 1)
  const VALUE := Slice(Some(-1), None, 1)

  /**
   * FalconModel: groups of `nHead / g` queries, one key and one value; keys and values are taken with the list
   * indices [-2] and [-1].
   */
  function FalconQkv(t: Tensor, nHead: nat, kvHeads: Option<nat>, hd: nat): Result<Tensor> {
    var g, cols := Groups(kvHeads), hd * nHead;
    var parts := nHead / g + 2;
    if Prod(Split(g, parts, hd, [cols])) != |t.data| then Err(ShapeMismatch)
    else
      var q := PartRows(t, g, parts, hd, [cols], QUERIES, nHead * hd);
      var k := PartRows(t, g, parts, hd, [cols], KEY, g * hd);
      var v := PartRows(t, g, parts, hd, [cols], VALUE, g * hd);
      ReshapeChecked(Join(q, k, v), t.shape)
  }

  /** reshape((-1, columns)) */
  function InferRows(t: Result<Tensor>, columns: nat): Result<Tensor> {
    match t
    case Err(e) => Err(e)
    case Ok(s) =>
      if columns > 0 && |s.data| % columns == 0 then Ok(Reshape(s, [|s.data| / columns] + [columns]))
      else Err(ShapeMismatch)
  }

  /** GPTNeoXModel, weights: a group is one head, and the columns are the embedding. */
  function NeoXWeight(t: Tensor, nHead: nat, nEmbed: nat): Result<Tensor>
    requires nHead > 0
  {
    var wide := Split(nHead, 3, nEmbed / nHead, [nEmbed]);
    if Prod(wide) != |t.data| then Err(ShapeMismatch)
    else
      var u := Reshape(t, wide);
      Join(InferRows(PartOf(u, Pick(0)), nEmbed), InferRows(PartOf(u, Pick(1)), nEmbed),
          InferRows(PartOf(u, Pick(2)), nEmbed))
  }

  /** GPTNeoXModel, biases. */
  function NeoXBias(t: Tensor, nHead: nat, nEmbed: nat): Result<Tensor>
    requires nHead > 0
  {
    var hd := nEmbed / nHead;
    if Prod(Split(nHead, 3, hd, [])) != |t.data| then Err(ShapeMismatch)
    else
      Join(PartRows(t, nHead, 3, hd, [], Pick(0), nEmbed), PartRows(t, nHead, 3, hd, [], Pick(1), nEmbed),
           PartRows(t, nHead, 3, hd, [], Pick(2), nEmbed))
  }

  lemma JoinIs(q: Tensor, k: Tensor, v: Tensor)
    ensures Join(Ok(q), Ok(k), Ok(v)) == Cat([q, k, v])
  {
    hide Cat;
  }

  lemma FalconItems(n: nat)
    ensures QUERIES.Slice? && Resolve(QUERIES, n + 2) == Ok(Span(0, 1, n))
    ensures KEY.Slice? && Resolve(KEY, n + 2) == Ok(Span(n, 1, 1))
    ensures VALUE.Slice? && Resolve(VALUE, n + 2) == Ok(Span(n + 1, 1, 1))
  {
  }

  lemma NeoXItems()
    ensures Resolve(Pick(0), 3) == Ok(Fixed(0)) && Resolve(Pick(1), 3) == Ok(Fixed(1))
            && Resolve(Pick(2), 3) == Ok(Fixed(2))
  {
  }

  lemma PartRowsIs(t: Tensor, g: nat, parts: nat, hd: nat, rest: seq<nat>, item: Item, rows: nat)
    ensures PartRows(t, g, parts, hd, rest, item, rows) ==
            ReshapeChecked(PartOf(Reshape(t, Split(g, parts, hd, rest)), item), [rows] + rest)
  {
  }

  lemma FalconBlocks(t: Tensor, g: nat, n: nat, hd: nat, rest: seq<nat>)
    requires t.Valid() && t.shape == [Rows(g, n + 2, hd)] + rest
    ensures var q := PartRows(t, g, n + 2, hd, rest, QUERIES, Rows(g, n, hd));
            var k := PartRows(t, g, n + 2, hd, rest, KEY, Rows(g, 1, hd));
            var v := PartRows(t, g, n + 2, hd, rest, VALUE, Rows(g, 1, hd));
            q.Ok? && k.Ok? && v.Ok? && Blocks(q.value, k.value, v.value, t, g, n, hd, rest)
  {
    FalconItems(n);
    hide *;
    PartRowsIs(t, g, n + 2, hd, rest, QUERIES, Rows(g, n, hd));
    PartRowsIs(t, g, n + 2, hd, rest, KEY, Rows(g, 1, hd));
    PartRowsIs(t, g, n + 2, hd, rest, VALUE, Rows(g, 1, hd));
    SliceBlock(t, QUERIES, 0, n, g, n + 2, hd, rest);
    SliceBlock(t, KEY, n, 1, g, n + 2, hd, rest);
    SliceBlock(t, VALUE, n + 1, 1, g, n + 2, hd, rest);
    BlocksAre(PartRows(t, g, n + 2, hd, rest, QUERIES, Rows(g, n, hd)).value,
              PartRows(t, g, n + 2, hd, rest, KEY, Rows(g, 1, hd)).value,
              PartRows(t, g, n + 2, hd, rest, VALUE, Rows(g, 1, hd)).value, t, g, n, n + 2, hd, rest);
  }

  lemma BlocksAre(q: Tensor, k: Tensor, v: Tensor, t: Tensor, g: nat, n: nat, c: nat, hd: nat, rest: seq<nat>)
    requires c == n + 2
    requires Block(q, t, g, c, 0, n, hd, rest) && Block(k, t, g, c, n, 1, hd, rest)
             && Block(v, t, g, c, n + 1, 1, hd, rest)
    ensures Blocks(q, k, v, t, g, n, hd, rest)
  {
    hide Block;
  }

  lemma FalconSizes(g: nat, n: nat, hd: nat)
    requires g > 0
    ensures (g * n) / g == n && g * n * hd == Rows(g, n, hd) && g * hd == Rows(g, 1, hd)
  {
    QuotientUnique(g * n, g, n, 0);
  }

  lemma FalconIs(t: Tensor, kvHeads: Option<nat>, n: nat, hd: nat, g: nat, nHead: nat, rest: seq<nat>)
    requires g == Groups(kvHeads) && nHead == g * n && rest == [hd * nHead]
    requires t.Valid() && t.shape == [Rows(g, n + 2, hd)] + rest
    ensures FalconQkv(t, nHead, kvHeads, hd) ==
            ReshapeChecked(Join(PartRows(t, g, n + 2, hd, rest, QUERIES, Rows(g, n, hd)),
                                PartRows(t, g, n + 2, hd, rest, KEY, Rows(g, 1, hd)),
                                PartRows(t, g, n + 2, hd, rest, VALUE, Rows(g, 1, hd))), t.shape)
  {
    FalconSizes(g, n, hd);
    SplitProd(g, n + 2, hd, rest);
    assert nHead / g == n && nHead * hd == Rows(g, n, hd) && g * hd == Rows(g, 1, hd);
    FalconUnfold(t, nHead, kvHeads, hd, g, n + 2, rest, Rows(g, n, hd), Rows(g, 1, hd));
    hide *;
  }

  lemma FalconUnfold(t: Tensor, nHead: nat, kvHeads: Option<nat>, hd: nat, g: nat, parts: nat, rest: seq<nat>,
                     queries: nat, keys: nat)
    requires g == Groups(kvHeads) && parts == nHead / g + 2 && rest == [hd * nHead]
    requires queries == nHead * hd && keys == g * hd && Prod(Split(g, parts, hd, rest)) == |t.data|
    ensures FalconQkv(t, nHead, kvHeads, hd) ==
            ReshapeChecked(Join(PartRows(t, g, parts, hd, rest, QUERIES, queries),
                PartRows(t, g, parts, hd, rest, KEY, keys),
                                PartRows(t, g, parts, hd, rest, VALUE, keys)), t.shape)
  {
    hide Rows, PartRows, ReshapeChecked, Split, Prod, Join, Groups, QUERIES, KEY, VALUE;
  }

  /** A checked reshape to the same shape. */
  lemma ReshapeSame(t: Tensor, shape: seq<nat>)
    requires t.Valid() && t.shape == shape
    ensures ReshapeChecked(Ok(t), shape) == Ok(t)
  {
  }

  /** FalconModel: row `r` of the result is the row of the weights that belongs there, whole. */
  lemma FalconRegroups(t: Tensor, g: nat, kvHeads: Option<nat>, n: nat, hd: nat, r: nat, i: seq<nat>)
    requires g > 0 && (kvHeads == Some(g) || (g == 1 && (kvHeads == None || kvHeads == Some(0))))
    requires t.Valid() && t.shape == [Rows(g, n + 2, hd)] + [hd * (g * n)] && r < Rows(g, n + 2, hd)
    requires InRange([hd * (g * n)], i)
    ensures var out := FalconQkv(t, g * n, kvHeads, hd);
            && hd > 0 && out.Ok? && out.value.Valid() && out.value.shape == t.shape
            && out.value.At([r] + i) == t.At([SourceRow(g, n, hd, r)] + i)
  {
    hide *;
    GroupsIs(g, kvHeads);
    var rest := [hd * (g * n)];
    FalconBlocks(t, g, n, hd, rest);
    FalconIs(t, kvHeads, n, hd, g, g * n, rest);
    var q := PartRows(t, g, n + 2, hd, rest, QUERIES, Rows(g, n, hd)).value;
    var k := PartRows(t, g, n + 2, hd, rest, KEY, Rows(g, 1, hd)).value;
    var v := PartRows(t, g, n + 2, hd, rest, VALUE, Rows(g, 1, hd)).value;
    JoinIs(q, k, v);
    JoinedShape(q, k, v, t, g, n, hd, rest);
    JoinedRow(q, k, v, t, g, n, hd, rest, r, i);
    ReshapeSame(Cat([q, k, v]).value, t.shape);
  }

  lemma InferSame(t: Tensor, rows: nat, columns: nat)
    requires columns > 0 && |t.data| == Prod([rows] + [columns])
    ensures InferRows(Ok(t), columns) == ReshapeChecked(Ok(t), [rows] + [columns])
  {
    RavelFront(rows, [columns], 0, [0]);
    RavelAppend([], [], columns, 0);
    NoDimensions();
    assert [] + [columns] == [columns];
    QuotientUnique(rows * columns, columns, rows, 0);
    hide Prod, Ravel;
  }

  lemma NeoXPart(t: Tensor, item: Item, pos: nat, h: nat, hd: nat, columns: nat)
    requires t.Valid() && t.shape == [Rows(h, 3, hd)] + [columns] && columns > 0 && pos < 3
    requires item.Pick? && Resolve(item, 3) == Ok(Fixed(pos))
    ensures var r := InferRows(PartOf(Reshape(t, Split(h, 3, hd, [columns])), item), columns);
            r.Ok? && Block(r.value, t, h, 3, pos, 1, hd, [columns])
  {
    var u := Reshape(t, Split(h, 3, hd, [columns]));
    ReshapeIs(t, Split(h, 3, hd, [columns]));
    PickPart(u, item, h, 3, hd, [columns]);
    PairProd(h, hd, [columns]);
    var s := PartOf(u, item).value;
    assert |s.data| == Prod([Rows(h, 1, hd)] + [columns]);
    hide *;
    PickBlock(t, item, pos, h, 3, hd, [columns]);
    InferSame(s, Rows(h, 1, hd), columns);
  }

  lemma NeoXWeightIs(t: Tensor, h: nat, hd: nat, c: nat)
    requires h > 0 && c == h * hd && t.Valid() && t.shape == [Rows(h, 3, hd)] + [c]
    ensures var u := Reshape(t, Split(h, 3, hd, [c]));
            NeoXWeight(t, h, c) ==
            Join(InferRows(PartOf(u, Pick(0)), c), InferRows(PartOf(u, Pick(1)), c), InferRows(PartOf(u, Pick(2)), c))
  {
    QuotientUnique(h * hd, h, hd, 0);
    assert hd * h == h * hd;
    SplitProd(h, 3, hd, [c]);
    hide Rows, PartOf, InferRows, Split, Prod, Join;
  }

  /** GPTNeoXModel, weights. */
  lemma NeoXWeightRegroups(t: Tensor, h: nat, hd: nat, r: nat, i: seq<nat>)
    requires h > 0 && hd > 0 && t.Valid() && t.shape == [Rows(h, 3, hd)] + [h * hd]
    requires r < Rows(h, 3, hd) && InRange([h * hd], i)
    ensures var out := NeoXWeight(t, h, h * hd);
            && out.Ok? && out.value.Valid() && out.value.shape == t.shape
            && out.value.At([r] + i) == t.At([SourceRow(h, 1, hd, r)] + i)
  {
    assert h * hd > 0 by { MulMono(1, h, hd); }
    NeoXItems();
    hide *;
    NeoXWeightRow(t, h, hd, h * hd, r, i);
  }

  lemma NeoXWeightRow(t: Tensor, h: nat, hd: nat, c: nat, r: nat, i: seq<nat>)
    requires h > 0 && c == h * hd > 0 && hd > 0 && t.Valid() && t.shape == [Rows(h, 3, hd)] + [c]
    requires r < Rows(h, 3, hd) && InRange([c], i)
    requires Resolve(Pick(0), 3) == Ok(Fixed(0)) && Resolve(Pick(1), 3) == Ok(Fixed(1))
             && Resolve(Pick(2), 3) == Ok(Fixed(2))
    ensures var out := NeoXWeight(t, h, c);
            && out.Ok? && out.value.Valid() && out.value.shape == t.shape
            && out.value.At([r] + i) == t.At([SourceRow(h, 1, hd, r)] + i)
  {
    hide *;
    NeoXPart(t, Pick(0), 0, h, hd, c);
    NeoXPart(t, Pick(1), 1, h, hd, c);
    NeoXPart(t, Pick(2), 2, h, hd, c);
    NeoXWeightIs(t, h, hd, c);
    var u := Reshape(t, Split(h, 3, hd, [c]));
    var q := InferRows(PartOf(u, Pick(0)), c).value;
    var k := InferRows(PartOf(u, Pick(1)), c).value;
    var v := InferRows(PartOf(u, Pick(2)), c).value;
    BlocksAre(q, k, v, t, h, 1, 3, hd, [c]);
    JoinIs(q, k, v);
    JoinedShape(q, k, v, t, h, 1, hd, [c]);
    JoinedRow(q, k, v, t, h, 1, hd, [c], r, i);
  }

  lemma NeoXBiasIs(t: Tensor, h: nat, hd: nat, rest: seq<nat>)
    requires h > 0 && rest == [] && t.Valid() && t.shape == [Rows(h, 3, hd)] + rest
    ensures NeoXBias(t, h, h * hd) ==
            Join(PartRows(t, h, 3, hd, rest, Pick(0), Rows(h, 1, hd)),
                PartRows(t, h, 3, hd, rest, Pick(1), Rows(h, 1, hd)),
                 PartRows(t, h, 3, hd, rest, Pick(2), Rows(h, 1, hd)))
  {
    QuotientUnique(h * hd, h, hd, 0);
    assert hd * h == h * hd;
    FalconSizes(h, 1, hd);
    SplitProd(h, 3, hd, rest);
    hide Rows, PartRows, Split, Prod, Join;
  }

  /** GPTNeoXModel, biases. */
  lemma NeoXBiasRegroups(t: Tensor, h: nat, hd: nat, r: nat)
    requires h > 0 && t.Valid() && t.shape == [Rows(h, 3, hd)] && r < Rows(h, 3, hd)
    ensures var out := NeoXBias(t, h, h * hd);
            && hd > 0 && out.Ok? && out.value.Valid() && out.value.shape == t.shape
            && out.value.At([r]) == t.At([SourceRow(h, 1, hd, r)])
  {
    NeoXItems();
    NoColumns();
    hide *;
    AppendNothing(Rows(h, 3, hd));
    NeoXBiasRow(t, h, hd, [], r, []);
    AppendNothing(r);
    AppendNothing(SourceRow(h, 1, hd, r));
  }

  lemma NoColumns()
    ensures InRange([], [])
  {
  }

  lemma AppendNothing(r: nat)
    ensures [r] + [] == [r]
  {
  }

  lemma NeoXBiasRow(t: Tensor, h: nat, hd: nat, rest: seq<nat>, r: nat, i: seq<nat>)
    requires h > 0 && rest == [] && t.Valid() && t.shape == [Rows(h, 3, hd)] + rest && r < Rows(h, 3, hd)
             && InRange(rest, i)
    requires Resolve(Pick(0), 3) == Ok(Fixed(0)) && Resolve(Pick(1), 3) == Ok(Fixed(1))
             && Resolve(Pick(2), 3) == Ok(Fixed(2))
    ensures var out := NeoXBias(t, h, h * hd);
            && hd > 0 && out.Ok? && out.value.Valid() && out.value.shape == t.shape
            && out.value.At([r] + i) == t.At([SourceRow(h, 1, hd, r)] + i)
  {
    hide *;
    var m := Rows(h, 1, hd);
    PickBlock(t, Pick(0), 0, h, 3, hd, rest);
    PickBlock(t, Pick(1), 1, h, 3, hd, rest);
    PickBlock(t, Pick(2), 2, h, 3, hd, rest);
    PartRowsIs(t, h, 3, hd, rest, Pick(0), m);
    PartRowsIs(t, h, 3, hd, rest, Pick(1), m);
    PartRowsIs(t, h, 3, hd, rest, Pick(2), m);
    NeoXBiasIs(t, h, hd, rest);
    var q := PartRows(t, h, 3, hd, rest, Pick(0), m).value;
    var k := PartRows(t, h, 3, hd, rest, Pick(1), m).value;
    var v := PartRows(t, h, 3, hd, rest, Pick(2), m).value;
    BlocksAre(q, k, v, t, h, 1, 3, hd, rest);
    JoinIs(q, k, v);
    JoinedShape(q, k, v, t, h, 1, hd, rest);
    JoinedRow(q, k, v, t, h, 1, hd, rest, r, i);
  }
}
