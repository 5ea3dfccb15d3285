/** LoraTorchTensor.__getitem__: integers, slices and tuples, compared with indexing the product. */
module LoraGetItem {
  import opened Bits
  import opened Tensors
  import opened LoraTensor
  import opened LoraIndexing

  function Fulls(n: nat): (r: seq<Item>)
    ensures |r| == n
  {
    seq(n, _ => FULL)
  }

  /** torch takes an index with fewer items than dimensions as if followed by full slices. */
  function Padded(items: seq<Item>, n: nat): (r: seq<Item>)
    ensures |items| <= n ==> |r| == n
  {
    if |items| < n then items + Fulls(n - |items|) else items
  }

  // ----- a tuple of one item per dimension

  /** What a leading dimension of A is indexed with: integers wrapped into A's size, slices widened to everything. */
  function Widened(item: Item, a: nat): Item
    requires item.Pick? ==> a > 0
  {
    if item.Pick? then Pick(item.i % a) else FULL
  }

  predicate Wrappable(items: seq<Item>, ashape: seq<nat>) {
    |items| == |ashape| && forall i :: 0 <= i < |items| && items[i].Pick? ==> ashape[i] > 0
  }

  function LeadItems(items: seq<Item>, ashape: seq<nat>): (r: seq<Item>)
    requires Wrappable(items, ashape)
    ensures |r| == |items|
  {
    seq(|items|, i requires 0 <= i < |items| => Widened(items[i], ashape[i]))
  }

  function Paired(a: Result<Tensor>, b: Result<Tensor>): Result<Lora> {
    match (a, b)
    case (Ok(x), Ok(y)) => if Lora(x, y).Constructed() then Ok(Lora(x, y)) else Err(AssertionFailed)
    case _ => Err(IndexOutOfRange)
  }

  function GetItems(p: Lora, items: seq<Item>): Result<Lora>
    requires p.Constructed()
  {
    var n := |p.A.shape|;
    if |items| != n || !Wrappable(items[..n - 2], p.A.shape[..n - 2]) then Err(IndexOutOfRange)
    else
      Paired(Index(p.A, (LeadItems(items[..n - 2], p.A.shape[..n - 2]) + [FULL]) + [items[n - 1]]),
             Index(p.B, (items[..n - 2] + [items[n - 2]]) + [FULL]))
  }

  /** A slice of a leading dimension that A does not broadcast has to keep every entry. */
  ghost predicate Keeps(item: Item, a: nat, b: nat) {
    Resolve(item, b).Ok? && (item.Slice? ==> a == 1 || Resolve(item, b).value.count == b)
  }

  lemma WidenedPlace(item: Item, a: nat, b: nat)
    requires (a == 1 || a == b) && (item.Pick? ==> a > 0) && Resolve(item, b).Ok?
    ensures Resolve(Widened(item, a), a).Ok? && (Widened(item, a).Slice? <==> item.Slice?)
    ensures item.Slice? ==> Resolve(Widened(item, a), a).value == Span(0, 1, a)
    ensures item.Pick? ==> Resolve(item, b).value.Fixed?
    ensures item.Pick? ==> Resolve(Widened(item, a), a).value == Fixed(if a == 1 then 0 else Resolve(item, b).value.pos)
  {
    FullSpan(a);
    if item.Pick? && a != 1 {
      var j := item.i;
      if j < 0 { QuotientUnique(j, a, -1, j + a); } else { QuotientUnique(j, a, 0, j); }
    }
  }

  /** A slice that keeps all of two or more entries keeps them in place. */
  lemma KeepsInPlace(item: Item, n: nat)
    requires item.Slice? && Resolve(item, n).Ok? && Resolve(item, n).value.count == n
    ensures n >= 2 ==> Resolve(item, n).value == Span(0, 1, n)
  {
    PlaceKind(item, n);
    if n >= 2 {
      var s := Resolve(item, n).value;
      SpanInside(item, n, n - 1);
      hide Resolve;
      assert s.step >= 1 by { StepPositive(item, n); }
      if s.step >= 2 { MulMono(2, s.step, n - 1); }
    }
  }

  lemma StepPositive(item: Item, n: nat)
    requires item.Slice? && Resolve(item, n).Ok?
    ensures Resolve(item, n).value.Span? && Resolve(item, n).value.step >= 1
  {
  }

  lemma KeptAligned(item: Item, a: nat, b: nat)
    requires (a == 1 || a == b) && (item.Pick? ==> a > 0) && Keeps(item, a, b)
    ensures Aligned(Widened(item, a), a, item, b)
  {
    WidenedPlace(item, a, b);
    PlaceKind(item, b);
    if item.Slice? && a != 1 { KeepsInPlace(item, b); }
    var t, s := Resolve(Widened(item, a), a).value, Resolve(item, b).value;
    hide Resolve;
    if s.Span? {
      forall k: nat | k < s.count ensures SameEntry(t, a, s, k) {
      }
    }
    assert AlignedPlaces(t, a, s);
  }

  lemma LeadItemsAppend(items: seq<Item>, ashape: seq<nat>, item: Item, a: nat)
    requires |items| == |ashape| && Wrappable(items + [item], ashape + [a])
    ensures Wrappable(items, ashape) && (item.Pick? ==> a > 0)
    ensures LeadItems(items + [item], ashape + [a]) == LeadItems(items, ashape) + [Widened(item, a)]
  {
    var us, ss := items + [item], ashape + [a];
    assert us[|items|] == item && ss[|items|] == a;
    forall i | 0 <= i < |items| && items[i].Pick? ensures ashape[i] > 0 {
      assert us[i] == items[i] && ss[i] == ashape[i];
    }
  }

  ghost predicate AllKept(items: seq<Item>, al: seq<nat>, bl: seq<nat>) {
    |items| == |al| == |bl| && forall i :: 0 <= i < |items| ==> Keeps(items[i], al[i], bl[i])
  }

  lemma KeptLeadOk(items: seq<Item>, al: seq<nat>, bl: seq<nat>)
    requires Wrappable(items, al) && Broadcasts(al, bl) && AllKept(items, al, bl)
    ensures LeadOk(LeadItems(items, al), al, items, bl)
  {
    hide Keeps, Aligned, Widened;
    forall i | 0 <= i < |items| ensures Aligned(LeadItems(items, al)[i], al[i], items[i], bl[i]) {
      KeptAligned(items[i], al[i], bl[i]);
    }
  }

  lemma AllKeptAppend(us: seq<Item>, sa: seq<nat>, sb: seq<nat>, x: Item, a: nat, b: nat)
    requires AllKept(us, sa, sb) && Keeps(x, a, b)
    ensures AllKept(us + [x], sa + [a], sb + [b])
  {
    hide Keeps;
  }

  /** If what is left of A still broadcasts against what is left of B, every leading slice kept what it had to. */
  lemma {:induction false} BroadcastsMeansKept(items: seq<Item>, al: seq<nat>, bl: seq<nat>)
    requires Wrappable(items, al) && Broadcasts(al, bl) && Resolved(items, bl) && Resolved(LeadItems(items, al), al)
    requires Broadcasts(IndexedShape(LeadItems(items, al), al), IndexedShape(items, bl))
    ensures AllKept(items, al, bl)
  {
    if items != [] {
      var n := |items|;
      var us, sa, sb := items[..n - 1], al[..n - 1], bl[..n - 1];
      var x, a, b := items[n - 1], al[n - 1], bl[n - 1];
      assert items == us + [x] && al == sa + [a] && bl == sb + [b];
      LeadItemsAppend(us, sa, x, a);
      ResolvedAppend(us, sb, x, b);
      ResolvedAppend(LeadItems(us, sa), sa, Widened(x, a), a);
      BroadcastsInit(sa, sb, a, b);
      hide *;
      KeptLast(us, sa, sb, x, a, b);
      BroadcastsMeansKept(us, sa, sb);
      AllKeptAppend(us, sa, sb, x, a, b);
    }
  }

  lemma KeptLast(us: seq<Item>, sa: seq<nat>, sb: seq<nat>, x: Item, a: nat, b: nat)
    requires |us| == |sa| == |sb| && Wrappable(us + [x], sa + [a]) && Wrappable(us, sa) && (x.Pick? ==> a > 0)
    requires Resolved(us, sb) && Resolve(x, b).Ok? && Resolved(us + [x], sb + [b]) && (a == 1 || a == b)
    requires Resolved(LeadItems(us, sa), sa) && Resolved(LeadItems(us, sa) + [Widened(x, a)], sa + [a])
    requires Broadcasts(IndexedShape(LeadItems(us, sa) + [Widened(x, a)], sa + [a]), IndexedShape(us + [x], sb + [b]))
    ensures Keeps(x, a, b)
    ensures Broadcasts(IndexedShape(LeadItems(us, sa), sa), IndexedShape(us, sb))
  {
    WidenedPlace(x, a, b);
    PlaceKind(x, b);
    hide Resolve, Resolved, IndexedShape, Broadcasts, LeadItems, Wrappable, Widened;
    IndexedAppend(us, sb, x, b);
    IndexedAppend(LeadItems(us, sa), sa, Widened(x, a), a);
    if x.Slice? {
      BroadcastsInit(IndexedShape(LeadItems(us, sa), sa), IndexedShape(us, sb), a, Resolve(x, b).value.count);
    }
  }

  lemma BroadcastsInit(s: seq<nat>, t: seq<nat>, a: nat, b: nat)
    requires Broadcasts(s + [a], t + [b])
    ensures Broadcasts(s, t) && (a == 1 || a == b)
  {
    var u, v := s + [a], t + [b];
    assert u[|s|] == a && v[|s|] == b;
    forall i | 0 <= i < |s| ensures s[i] == 1 || s[i] == t[i] {
      assert u[i] == s[i] && v[i] == t[i];
    }
  }

  // ----- when it commutes with the product

  /** The result of an operation on a pair stands for the result of indexing the product with the same items. */
  ghost predicate StandsFor(q: Lora, p: Lora, items: seq<Item>)
    requires p.Constructed()
  {
    q.Valid() && Index(p.Product(), items) == Ok(q.Product())
  }

  ghost predicate RowsAndColumnsSliced(items: seq<Item>)
    requires |items| >= 2
  {
    items[|items| - 2].Slice? && items[|items| - 1].Slice?
  }

  lemma SlicedInit(li: seq<Item>, x: Item, y: Item)
    ensures var items := (li + [x]) + [y];
            |items| == |li| + 2 && items[|li|] == x && items[|li| + 1] == y && items[..|li|] == li
  {
  }

  lemma ShapeSplit(p: Lora)
    requires p.Constructed()
    ensures var n := |p.A.shape|;
            && p.A.shape == (p.A.shape[..n - 2] + [p.Rank()]) + [p.A.shape[n - 1]]
            && p.B.shape == (p.B.shape[..n - 2] + [p.B.shape[n - 2]]) + [p.Rank()]
            && p.Shape() == (p.B.shape[..n - 2] + [p.B.shape[n - 2]]) + [p.A.shape[n - 1]]
  {
  }

  lemma LeadBroadcast(p: Lora)
    requires p.Valid()
    ensures Broadcasts(p.A.shape[..|p.A.shape| - 2], p.B.shape[..|p.A.shape| - 2])
  {
  }

  /** The pieces of an indexed pair. */
  lemma GetItemsResolved(p: Lora, li: seq<Item>, row: Item, col: Item)
    requires p.Valid() && GetItems(p, (li + [row]) + [col]).Ok?
    ensures var n := |p.A.shape|;
            var (al, bl, c, rows, r) := (p.A.shape[..n - 2], p.B.shape[..n - 2], p.A.shape[n - 1], p.B.shape[n - 2],
                p.Rank());
            && |li| == n - 2 && Wrappable(li, al) && Resolved(LeadItems(li, al), al) && Resolved(li, bl)
            && Resolve(row, rows).Ok? && Resolve(col, c).Ok?
            && Resolved((LeadItems(li, al) + [FULL]) + [col], (al + [r]) + [c])
            && Resolved((li + [row]) + [FULL], (bl + [rows]) + [r])
            && Resolved((li + [row]) + [col], (bl + [rows]) + [c])
            && Index(p.A, (LeadItems(li, al) + [FULL]) + [col]).Ok? && Index(p.B, (li + [row]) + [FULL]).Ok?
            && GetItems(p, (li + [row]) + [col]).value ==
               Lora(Index(p.A, (LeadItems(li, al) + [FULL]) + [col]).value, Index(p.B, (li + [row]) + [FULL]).value)
            && GetItems(p, (li + [row]) + [col]).value.Constructed()
  {
    SlicedInit(li, row, col);
    ShapeSplit(p);
    hide Resolve, Index, LeadItems, Wrappable, Resolved, Lora.Valid;
    var n := |p.A.shape|;
    var al, bl, c, rows, r := p.A.shape[..n - 2], p.B.shape[..n - 2], p.A.shape[n - 1], p.B.shape[n - 2], p.Rank();
    IndexResolved(p.A, (LeadItems(li, al) + [FULL]) + [col]);
    IndexResolved(p.B, (li + [row]) + [FULL]);
    ResolvedAppend(LeadItems(li, al) + [FULL], al + [r], col, c);
    ResolvedAppend(LeadItems(li, al), al, FULL, r);
    ResolvedAppend(li + [row], bl + [rows], FULL, r);
    ResolvedAppend(li, bl, row, rows);
    ResolvedAppend(li + [row], bl + [rows], col, c);
  }

  /** Parts that fit, put together. */
  lemma Assembled(p: Lora, la: seq<Item>, al: seq<nat>, lb: seq<Item>, bl: seq<nat>, rank: nat, columns: nat, rows: nat,
                  row: Item, col: Item)
    requires p.Valid() && LeadOk(la, al, lb, bl) && Resolved(la, al) && Resolved(lb, bl) && row.Slice? && col.Slice?
    requires p.A.shape == (al + [rank]) + [columns] && p.B.shape == (bl + [rows]) + [rank]
    requires p.Shape() == (bl + [rows]) + [columns]
    requires Resolved((la + [FULL]) + [col], (al + [rank]) + [columns])
    requires Resolved((lb + [row]) + [FULL], (bl + [rows]) + [rank])
    requires Resolved((lb + [row]) + [col], (bl + [rows]) + [columns])
    requires Index(p.A, (la + [FULL]) + [col]).Ok? && Index(p.B, (lb + [row]) + [FULL]).Ok?
    ensures StandsFor(Lora(Index(p.A, (la + [FULL]) + [col]).value, Index(p.B, (lb + [row]) + [FULL]).value), p,
                      (lb + [row]) + [col])
  {
    hide Resolve, Resolved, Index, LeadOk, Lora.Product, Lora.Valid;
    var t := Parts(p, la, al, lb, bl, rank, columns, rows, row, col);
    IndexedProduct(t, (lb + [row]) + [col]);
  }

  lemma GetItemsSound(p: Lora, li: seq<Item>, row: Item, col: Item)
    requires p.Valid() && GetItems(p, (li + [row]) + [col]).Ok? && row.Slice? && col.Slice?
    requires |li| == |p.A.shape| - 2 && AllKept(li, p.A.shape[..|li|], p.B.shape[..|li|])
    ensures StandsFor(GetItems(p, (li + [row]) + [col]).value, p, (li + [row]) + [col])
  {
    GetItemsResolved(p, li, row, col);
    ShapeSplit(p);
    LeadBroadcast(p);
    var n := |p.A.shape|;
    var al, bl := p.A.shape[..n - 2], p.B.shape[..n - 2];
    KeptLeadOk(li, al, bl);
    LeadResolved(LeadItems(li, al), al, li, bl);
    hide *;
    Assembled(p, LeadItems(li, al), al, li, bl, p.Rank(), p.A.shape[n - 1], p.B.shape[n - 2], row, col);
  }

  /** The dimensions left after two trailing items. */
  lemma TailLength(li: seq<Item>, ls: seq<nat>, x: Item, a: nat, y: Item, b: nat)
    requires |li| == |ls| && Resolved(li, ls) && Resolved((li + [x]) + [y], (ls + [a]) + [b])
    ensures |IndexedShape((li + [x]) + [y], (ls + [a]) + [b])| ==
            |IndexedShape(li, ls)| + (if x.Slice? then 1 else 0) + (if y.Slice? then 1 else 0)
  {
    hide Resolve, IndexedShape;
    ResolvedAppend(li + [x], ls + [a], y, b);
    ResolvedAppend(li, ls, x, a);
    PlaceKind(x, a);
    PlaceKind(y, b);
    hide Resolved;
    IndexedAppend(li + [x], ls + [a], y, b);
    IndexedAppend(li, ls, x, a);
  }

  /** A and B lose the same leading dimensions. */
  lemma {:induction false} LeadLength(items: seq<Item>, al: seq<nat>, bl: seq<nat>)
    requires |items| == |al| == |bl| && Wrappable(items, al) && Resolved(items, bl)
             && Resolved(LeadItems(items, al), al)
    ensures |IndexedShape(LeadItems(items, al), al)| == |IndexedShape(items, bl)|
  {
    if items != [] {
      var n := |items|;
      var us, sa, sb := items[..n - 1], al[..n - 1], bl[..n - 1];
      var x, a, b := items[n - 1], al[n - 1], bl[n - 1];
      assert items == us + [x] && al == sa + [a] && bl == sb + [b];
      LeadItemsAppend(us, sa, x, a);
      ResolvedAppend(us, sb, x, b);
      ResolvedAppend(LeadItems(us, sa), sa, Widened(x, a), a);
      PlaceKind(x, b);
      PlaceKind(Widened(x, a), a);
      assert Widened(x, a).Slice? <==> x.Slice?;
      hide *;
      LeadLength(us, sa, sb);
      IndexedAppend(us, sb, x, b);
      IndexedAppend(LeadItems(us, sa), sa, Widened(x, a), a);
    }
  }

  /** The product keeps both its trailing dimensions only if both were sliced. */
  lemma StandsForMeansSliced(p: Lora, li: seq<Item>, row: Item, col: Item)
    requires p.Valid() && GetItems(p, (li + [row]) + [col]).Ok?
    requires StandsFor(GetItems(p, (li + [row]) + [col]).value, p, (li + [row]) + [col])
    ensures row.Slice? && col.Slice?
  {
    GetItemsResolved(p, li, row, col);
    ShapeSplit(p);
    ProductShape(p);
    var q := GetItems(p, (li + [row]) + [col]).value;
    assert q.Valid();
    ProductShape(q);
    hide GetItems, Resolve, Resolved, Index, LeadItems, Wrappable, Lora.Product, Lora.Valid, IndexedShape;
    var n := |p.A.shape|;
    var al, bl, c, rows, r := p.A.shape[..n - 2], p.B.shape[..n - 2], p.A.shape[n - 1], p.B.shape[n - 2], p.Rank();
    IndexShape(p.A, (LeadItems(li, al) + [FULL]) + [col]);
    IndexShape(p.B, (li + [row]) + [FULL]);
    IndexShape(p.Product(), (li + [row]) + [col]);
    LeadLength(li, al, bl);
    TailLength(LeadItems(li, al), al, FULL, r, col, c);
    TailLength(li, bl, row, rows, FULL, r);
    TailLength(li, bl, row, rows, col, c);
  }

  lemma StandsForMeansKept(p: Lora, li: seq<Item>, row: Item, col: Item)
    requires p.Valid() && GetItems(p, (li + [row]) + [col]).Ok? && row.Slice? && col.Slice?
    requires GetItems(p, (li + [row]) + [col]).value.Valid()
    ensures |li| == |p.A.shape| - 2 && AllKept(li, p.A.shape[..|li|], p.B.shape[..|li|])
  {
    GetItemsResolved(p, li, row, col);
    LeadBroadcast(p);
    var n := |p.A.shape|;
    var al, bl, c, rows, r := p.A.shape[..n - 2], p.B.shape[..n - 2], p.A.shape[n - 1], p.B.shape[n - 2], p.Rank();
    ShapeSplit(p);
    hide GetItems, Resolve, Resolved, Index, LeadItems, Wrappable, AllKept, IndexedShape;
    var q := GetItems(p, (li + [row]) + [col]).value;
    IndexShape(p.A, (LeadItems(li, al) + [FULL]) + [col]);
    IndexShape(p.B, (li + [row]) + [FULL]);
    TwoSlices(LeadItems(li, al), al, FULL, r, col, c);
    TwoSlices(li, bl, row, rows, FULL, r);
    ValidLead(q, IndexedShape(LeadItems(li, al), al), IndexedShape(li, bl), Resolve(row, rows).value.count, r,
              Resolve(FULL, r).value.count, Resolve(col, c).value.count);
    BroadcastsMeansKept(li, al, bl);
  }

  lemma StandsForValid(q: Lora, p: Lora, items: seq<Item>)
    requires p.Constructed() && StandsFor(q, p, items)
    ensures q.Valid()
  {
  }

  lemma ValidLead(q: Lora, small: seq<nat>, lead: seq<nat>, rows: nat, r: nat, r': nat, c: nat)
    requires q.Valid() && q.A.shape == (small + [r']) + [c] && q.B.shape == (lead + [rows]) + [r']
    ensures Broadcasts(small, lead)
  {
    forall i | 0 <= i < |small| ensures small[i] == 1 || small[i] == lead[i] {
      assert q.A.shape[i] == small[i] && q.B.shape[i] == lead[i];
    }
  }

  lemma GetItemsExactly(p: Lora, li: seq<Item>, row: Item, col: Item)
    requires p.Valid() && GetItems(p, (li + [row]) + [col]).Ok?
    ensures |li| == |p.A.shape| - 2
    ensures StandsFor(GetItems(p, (li + [row]) + [col]).value, p, (li + [row]) + [col]) <==>
            row.Slice? && col.Slice? && AllKept(li, p.A.shape[..|li|], p.B.shape[..|li|])
  {
    GetItemsResolved(p, li, row, col);
    hide *;
    var items := (li + [row]) + [col];
    if row.Slice? && col.Slice? && AllKept(li, p.A.shape[..|li|], p.B.shape[..|li|]) {
      GetItemsSound(p, li, row, col);
    }
    if StandsFor(GetItems(p, items).value, p, items) {
      StandsForMeansSliced(p, li, row, col);
      StandsForValid(GetItems(p, items).value, p, items);
      StandsForMeansKept(p, li, row, col);
    }
  }

  lemma LeastTwo(p: Lora, items: seq<Item>)
    requires p.Valid() && GetItems(p, items).Ok?
    ensures |items| == |p.A.shape| == |p.B.shape| && |items| >= 2
  {
  }

  /**
   * Indexing a pair with one item per dimension: the result stands for the product indexed the same way exactly when
   * rows and columns are sliced and no leading slice selects from a dimension that A does not broadcast.
   */
  lemma GetItemsCommutes(p: Lora, items: seq<Item>)
    requires p.Valid() && GetItems(p, items).Ok?
    ensures |items| == |p.A.shape|
    ensures StandsFor(GetItems(p, items).value, p, items) <==>
            RowsAndColumnsSliced(items)
                && AllKept(items[..|items| - 2], p.A.shape[..|items| - 2], p.B.shape[..|items| - 2])
  {
    LeastTwo(p, items);
    SplitItems2(items);
    hide GetItems, AllKept, StandsFor, Lora.Valid;
    GetItemsExactly(p, items[..|items| - 2], items[|items| - 2], items[|items| - 1]);
  }

  // ----- a single integer or slice

  lemma FullsAppend(n: nat)
    ensures Fulls(n + 1) == Fulls(n) + [FULL]
  {
  }

  lemma HeadAndFulls(item: Item, shape: seq<nat>)
    requires shape != []
    ensures Resolved([item] + Fulls(|shape| - 1), shape) <==> Resolve(item, shape[0]).Ok?
  {
    var items := [item] + Fulls(|shape| - 1);
    forall i | 1 <= i < |shape| ensures Resolve(items[i], shape[i]).Ok? { FullSpan(shape[i]); }
    hide Resolve;
    assert items[0] == item;
  }

  lemma {:induction false} HeadShape(item: Item, shape: seq<nat>)
    requires shape != [] && Resolve(item, shape[0]).Ok? && Resolved([item] + Fulls(|shape| - 1), shape)
    ensures var s := Resolve(item, shape[0]).value;
            IndexedShape([item] + Fulls(|shape| - 1), shape) == (if s.Span? then [s.count] else []) + shape[1..]
  {
    var n := |shape|;
    hide Resolve, Resolved, IndexedShape;
    if n == 1 {
      assert [item] + Fulls(0) == [] + [item] && shape == [] + [shape[0]];
      ResolvedAppend([], [], item, shape[0]);
      IndexedAppend([], [], item, shape[0]);
      NothingIndexed();
    } else {
      FullsAppend(n - 2);
      var us, ss := [item] + Fulls(n - 2), shape[..n - 1];
      assert [item] + Fulls(n - 1) == us + [FULL] && shape == ss + [shape[n - 1]] && ss[0] == shape[0];
      FullSpan(shape[n - 1]);
      ResolvedAppend(us, ss, FULL, shape[n - 1]);
      IndexedAppend(us, ss, FULL, shape[n - 1]);
      HeadShape(item, ss);
      assert ss[1..] + [shape[n - 1]] == shape[1..];
    }
  }

  lemma NothingIndexed()
    ensures Resolved([], []) && IndexedShape([], []) == []
  {
  }

  /** One item for the same dimension of A and B. */
  lemma SameItemAligned(item: Item, a: nat, b: nat)
    requires (a == 1 || a == b) && Resolve(item, a).Ok? && Resolve(item, b).Ok?
    requires var (t, s) := (Resolve(item, a).value, Resolve(item, b).value);
             item.Pick? || a == b || t.count == 1 || t.count == s.count
    ensures Aligned(item, a, item, b)
  {
    PlaceKind(item, a);
    PlaceKind(item, b);
    var t, s := Resolve(item, a).value, Resolve(item, b).value;
    if t.Span? {
      StepPositive(item, a);
      if t.count >= 1 { SpanInside(item, a, 0); }
      if t.count >= 2 { SpanInside(item, a, 1); }
    }
    hide Resolve;
    if s.Span? {
      forall k: nat | k < s.count ensures SameEntry(t, a, s, k) {
      }
    }
    assert AlignedPlaces(t, a, s);
  }

  function GetOne(p: Lora, item: Item): Result<Lora>
    requires p.Constructed()
  {
    var n := |p.A.shape|;
    if n > 2 then Paired(Index(p.A, Padded([item], n)), Index(p.B, Padded([item], n)))
    else if item.Pick? then Err(NotImplemented)
    else Paired(Ok(p.A), Index(p.B, Padded([item], n)))
  }

  /** The leading items of a padded single item. */
  function HeadLead(item: Item, n: nat): seq<Item>
    requires n > 2
  {
    [item] + Fulls(n - 3)
  }

  lemma PaddedOne(item: Item, n: nat)
    requires n > 2
    ensures Padded([item], n) == (HeadLead(item, n) + [FULL]) + [FULL] == [item] + Fulls(n - 1)
    ensures |HeadLead(item, n)| == n - 2
  {
    FullsAppend(n - 2);
    FullsAppend(n - 3);
  }

  lemma HeadLeadOk(item: Item, al: seq<nat>, bl: seq<nat>)
    requires |al| >= 1 && Broadcasts(al, bl) && Aligned(item, al[0], item, bl[0])
    ensures LeadOk([item] + Fulls(|al| - 1), al, [item] + Fulls(|al| - 1), bl)
  {
    var li := [item] + Fulls(|al| - 1);
    forall i | 0 <= i < |al| ensures Aligned(li[i], al[i], li[i], bl[i]) {
      if i > 0 {
        FullSpan(al[i]);
        FullSpan(bl[i]);
        SameItemAligned(FULL, al[i], bl[i]);
      }
    }
  }

  lemma GetOneResolved(p: Lora, item: Item)
    requires p.Valid() && |p.A.shape| > 2 && GetOne(p, item).Ok?
    ensures var n := |p.A.shape|;
            var (al, bl, c, rows, r) := (p.A.shape[..n - 2], p.B.shape[..n - 2], p.A.shape[n - 1], p.B.shape[n - 2],
                p.Rank());
            && Resolve(item, p.A.shape[0]).Ok? && Resolve(item, p.B.shape[0]).Ok?
            && Resolved((HeadLead(item, n) + [FULL]) + [FULL], (al + [r]) + [c])
            && Resolved((HeadLead(item, n) + [FULL]) + [FULL], (bl + [rows]) + [r])
            && Resolved((HeadLead(item, n) + [FULL]) + [FULL], (bl + [rows]) + [c])
            && Index(p.A, (HeadLead(item, n) + [FULL]) + [FULL]).Ok?
            && Index(p.B, (HeadLead(item, n) + [FULL]) + [FULL]).Ok?
            && GetOne(p, item).value == Lora(Index(p.A, (HeadLead(item, n) + [FULL]) + [FULL]).value,
                                             Index(p.B, (HeadLead(item, n) + [FULL]) + [FULL]).value)
  {
    var n := |p.A.shape|;
    PaddedOne(item, n);
    ShapeSplit(p);
    hide Resolve, Resolved, Index, HeadLead, Padded, Lora.Valid;
    IndexResolved(p.A, (HeadLead(item, n) + [FULL]) + [FULL]);
    IndexResolved(p.B, (HeadLead(item, n) + [FULL]) + [FULL]);
    HeadAndFulls(item, p.A.shape);
    HeadAndFulls(item, p.B.shape);
    HeadAndFulls(item, p.Shape());
    assert p.Shape()[0] == p.B.shape[0];
  }

  lemma GetOneSound(p: Lora, item: Item)
    requires p.Valid() && |p.A.shape| > 2 && GetOne(p, item).Ok?
    requires Aligned(item, p.A.shape[0], item, p.B.shape[0])
    ensures StandsFor(GetOne(p, item).value, p, Padded([item], |p.A.shape|))
  {
    var n := |p.A.shape|;
    GetOneResolved(p, item);
    ShapeSplit(p);
    LeadBroadcast(p);
    PaddedOne(item, n);
    var al, bl := p.A.shape[..n - 2], p.B.shape[..n - 2];
    HeadLeadOk(item, al, bl);
    var li := HeadLead(item, n);
    LeadResolved(li, al, li, bl);
    hide *;
    Assembled(p, li, al, li, bl, p.Rank(), p.A.shape[n - 1], p.B.shape[n - 2], FULL, FULL);
  }

  lemma PaddedHead(item: Item, n: nat)
    requires n > 1
    ensures Padded([item], n) == [item] + Fulls(n - 1)
  {
  }

  lemma HeadIndexShape(t: Tensor, item: Item)
    requires t.shape != [] && Index(t, [item] + Fulls(|t.shape| - 1)).Ok?
    ensures Resolve(item, t.shape[0]).Ok?
    ensures var s := Resolve(item, t.shape[0]).value;
            Index(t, [item] + Fulls(|t.shape| - 1)).value.shape == (if s.Span? then [s.count] else []) + t.shape[1..]
  {
    hide *;
    var items := [item] + Fulls(|t.shape| - 1);
    IndexResolved(t, items);
    HeadAndFulls(item, t.shape);
    IndexShape(t, items);
    HeadShape(item, t.shape);
  }

  lemma GetOneShapes(p: Lora, item: Item)
    requires p.Valid() && |p.A.shape| > 2 && GetOne(p, item).Ok?
    ensures Resolve(item, p.A.shape[0]).Ok? && Resolve(item, p.B.shape[0]).Ok?
    ensures var (t, s) := (Resolve(item, p.A.shape[0]).value, Resolve(item, p.B.shape[0]).value);
            && GetOne(p, item).value.A.shape == (if t.Span? then [t.count] else []) + p.A.shape[1..]
            && GetOne(p, item).value.B.shape == (if s.Span? then [s.count] else []) + p.B.shape[1..]
  {
    var n := |p.A.shape|;
    assert |p.B.shape| == n;
    PaddedHead(item, n);
    GetOneIs(p, item);
    hide *;
    PairedParts(Index(p.A, Padded([item], n)), Index(p.B, Padded([item], n)));
    HeadIndexShape(p.A, item);
    HeadIndexShape(p.B, item);
  }

  lemma GetOneIs(p: Lora, item: Item)
    requires p.Constructed() && |p.A.shape| > 2
    ensures GetOne(p, item) == Paired(Index(p.A, Padded([item], |p.A.shape|)), Index(p.B, Padded([item], |p.A.shape|)))
  {
    hide Index, Padded, Paired;
  }

  lemma PairedParts(a: Result<Tensor>, b: Result<Tensor>)
    requires Paired(a, b).Ok?
    ensures a.Ok? && b.Ok? && Paired(a, b).value == Lora(a.value, b.value)
  {
  }

  lemma ValidFirst(q: Lora, a: nat, b: nat, s: seq<nat>, t: seq<nat>)
    requires q.Valid() && |s| >= 2 && q.A.shape == [a] + s && q.B.shape == [b] + t
    ensures a == 1 || a == b
  {
    assert q.A.shape[0] == a && q.B.shape[0] == b;
  }

  /**
   * A single integer or slice on a pair of more than two dimensions: an integer always selects the matching matrix;
   * a slice is right exactly when A and B share the dimension, or A keeps one entry, or A and B keep the same number.
   */
  lemma GetOneCommutes(p: Lora, item: Item)
    requires p.Valid() && |p.A.shape| > 2 && GetOne(p, item).Ok?
    ensures Resolve(item, p.A.shape[0]).Ok? && Resolve(item, p.B.shape[0]).Ok?
    ensures var (t, s) := (Resolve(item, p.A.shape[0]).value, Resolve(item, p.B.shape[0]).value);
            StandsFor(GetOne(p, item).value, p, Padded([item], |p.A.shape|)) <==>
            item.Pick? || p.A.shape[0] == p.B.shape[0] || t.count == 1 || t.count == s.count
  {
    GetOneResolved(p, item);
    GetOneShapes(p, item);
    var a, b := p.A.shape[0], p.B.shape[0];
    var t, s := Resolve(item, a).value, Resolve(item, b).value;
    PlaceKind(item, a);
    PlaceKind(item, b);
    assert a == 1 || a == b;
    hide *;
    if item.Pick? || a == b || t.count == 1 || t.count == s.count {
      SameItemAligned(item, a, b);
      GetOneSound(p, item);
    } else if StandsFor(GetOne(p, item).value, p, Padded([item], |p.A.shape|)) {
      StandsForValid(GetOne(p, item).value, p, Padded([item], |p.A.shape|));
      ValidFirst(GetOne(p, item).value, t.count, s.count, p.A.shape[1..], p.B.shape[1..]);
    }
  }

  // ----- a slice of a matrix

  lemma {:induction false} FullSource(shape: seq<nat>, idx: seq<nat>)
    requires |idx| == |shape|
    ensures Resolved(Fulls(|shape|), shape) && IndexedShape(Fulls(|shape|), shape) == shape
    ensures SourceOf(Fulls(|shape|), shape, idx) == idx
  {
    var n := |shape|;
    hide Resolve, IndexedShape, SourceOf;
    if n == 0 {
      NothingIndexed();
    } else {
      var s, i := shape[..n - 1], idx[..n - 1];
      assert shape == s + [shape[n - 1]] && idx == i + [idx[n - 1]];
      FullsAppend(n - 1);
      FullSource(s, i);
      FullSpan(shape[n - 1]);
      ResolvedAppend(Fulls(n - 1), s, FULL, shape[n - 1]);
      IndexedAppend(Fulls(n - 1), s, FULL, shape[n - 1]);
      SourceAppend(Fulls(n - 1), s, FULL, shape[n - 1], i, idx[n - 1]);
    }
  }

  lemma FullIndex(t: Tensor)
    requires t.Valid()
    ensures Index(t, Fulls(|t.shape|)) == Ok(t)
  {
    hide Index, IndexedShape, SourceOf, Resolved, Tensor.At, InRange;
    var items := Fulls(|t.shape|);
    FullSource(t.shape, t.shape);
    IndexResolved(t, items);
    IndexShape(t, items);
    forall idx | InRange(t.shape, idx) ensures t.At(idx) == Index(t, items).value.At(idx) {
      InRangeLength(t.shape, idx);
      FullSource(t.shape, idx);
      IndexAt(t, items, idx);
    }
    Extensional(t, Index(t, items).value);
  }

  lemma RowsResolved(item: Item, rows: nat, r: nat, c: nat)
    requires Resolved(([] + [item]) + [FULL], ([] + [rows]) + [r])
    ensures Resolve(item, rows).Ok? && Resolved(([] + [item]) + [FULL], ([] + [rows]) + [c])
    ensures Resolved(([] + [FULL]) + [FULL], ([] + [r]) + [c])
  {
    FullSpan(r);
    FullSpan(c);
    hide Resolve;
    var us, ss := ([] + [item]) + [FULL], ([] + [rows]) + [r];
    assert us[0] == item && ss[0] == rows;
  }

  lemma GetRowsResolved(p: Lora, item: Item)
    requires p.Valid() && |p.A.shape| == 2 && GetOne(p, item).Ok?
    ensures var (r, c, rows) := (p.Rank(), p.A.shape[1], p.B.shape[0]);
            && item.Slice? && Resolve(item, rows).Ok?
            && Resolved(([] + [FULL]) + [FULL], ([] + [r]) + [c])
            && Resolved(([] + [item]) + [FULL], ([] + [rows]) + [r])
            && Resolved(([] + [item]) + [FULL], ([] + [rows]) + [c])
            && Index(p.B, ([] + [item]) + [FULL]).Ok?
            && GetOne(p, item).value == Lora(p.A, Index(p.B, ([] + [item]) + [FULL]).value)
  {
    var r, c, rows := p.Rank(), p.A.shape[1], p.B.shape[0];
    GetRowsIs(p, item);
    MatrixShapes(p, item);
    hide *;
    var items := ([] + [item]) + [FULL];
    PairedParts(Ok(p.A), Index(p.B, items));
    IndexResolved(p.B, items);
    RowsResolved(item, rows, r, c);
  }

  lemma GetRowsIs(p: Lora, item: Item)
    requires p.Constructed() && |p.A.shape| == 2
    ensures GetOne(p, item).Ok? ==> item.Slice? && GetOne(p, item) == Paired(Ok(p.A), Index(p.B, Padded([item], 2)))
  {
    hide Index, Padded, Paired;
  }

  /** On a matrix a single slice selects rows, and always commutes. */
  lemma GetRowsCommutes(p: Lora, item: Item)
    requires p.Valid() && |p.A.shape| == 2 && GetOne(p, item).Ok?
    ensures StandsFor(GetOne(p, item).value, p, Padded([item], 2))
  {
    var r, c, rows := p.Rank(), p.A.shape[1], p.B.shape[0];
    GetRowsResolved(p, item);
    FullIndex(p.A);
    MatrixShapes(p, item);
    NoLead();
    hide *;
    Assembled(p, [], [], [], [], r, c, rows, item, FULL);
  }

  lemma MatrixShapes(p: Lora, item: Item)
    requires p.Valid() && |p.A.shape| == 2
    ensures Fulls(2) == ([] + [FULL]) + [FULL] && Padded([item], 2) == ([] + [item]) + [FULL]
    ensures p.A.shape == ([] + [p.Rank()]) + [p.A.shape[1]] && p.B.shape == ([] + [p.B.shape[0]]) + [p.Rank()]
    ensures p.Shape() == ([] + [p.B.shape[0]]) + [p.A.shape[1]]
  {
  }

  lemma NoLead()
    ensures LeadOk([], [], [], []) && Resolved([], [])
  {
  }

  // ----- inputs on which indexing goes wrong

  function Blank(shape: seq<nat>): (t: Tensor)
    ensures t.Valid() && t.shape == shape
  {
    Build(shape, _ => 0.0)
  }

  lemma {:induction false} WidenedResolved(items: seq<Item>, ashape: seq<nat>)
    requires Wrappable(items, ashape)
    ensures Resolved(LeadItems(items, ashape), ashape)
  {
    forall i | 0 <= i < |items| ensures Resolve(LeadItems(items, ashape)[i], ashape[i]).Ok? {
      if items[i].Pick? { RemainderBelow(items[i].i, ashape[i]); } else { FullSpan(ashape[i]); }
    }
  }

  lemma RemainderBelow(i: int, a: nat)
    requires a > 0
    ensures Resolve(Pick(i % a), a).Ok?
  {
  }

  /** Items that fit their dimensions, with rows and columns sliced, always give a pair. */
  lemma GetItemsSucceeds(p: Lora, li: seq<Item>, row: Item, col: Item)
    requires p.Valid() && |li| == |p.A.shape| - 2 && row.Slice? && col.Slice?
    requires Wrappable(li, p.A.shape[..|li|]) && Resolved(li, p.B.shape[..|li|])
    requires Resolve(row, p.B.shape[|li|]).Ok? && Resolve(col, p.A.shape[|li| + 1]).Ok?
    ensures GetItems(p, (li + [row]) + [col]).Ok?
  {
    var n := |p.A.shape|;
    var al, bl, c, rows, r := p.A.shape[..n - 2], p.B.shape[..n - 2], p.A.shape[n - 1], p.B.shape[n - 2], p.Rank();
    ShapeSplit(p);
    SlicedInit(li, row, col);
    FullSpan(r);
    WidenedResolved(li, al);
    hide Resolve, Index, LeadItems, Wrappable, Resolved, IndexedShape;
    var la := LeadItems(li, al);
    ResolvedAppend(la, al, FULL, r);
    ResolvedAppend(la + [FULL], al + [r], col, c);
    ResolvedAppend(li, bl, row, rows);
    ResolvedAppend(li + [row], bl + [rows], FULL, r);
    IndexResolved(p.A, (la + [FULL]) + [col]);
    IndexResolved(p.B, (li + [row]) + [FULL]);
    IndexShape(p.A, (la + [FULL]) + [col]);
    IndexShape(p.B, (li + [row]) + [FULL]);
    LeadLength(li, al, bl);
    TwoSlices(la, al, FULL, r, col, c);
    TwoSlices(li, bl, row, rows, FULL, r);
    hide Lora.Valid;
  }

  lemma BlankPair(a: seq<nat>, b: seq<nat>)
    requires |a| == |b| >= 2 && a[|a| - 2] == b[|b| - 1] && forall i :: 0 <= i < |a| - 2 ==> a[i] == 1 || a[i] == b[i]
    ensures var p := Lora(Blank(a), Blank(b)); p.Valid() && p.Constructed() && p.A.shape == a && p.B.shape == b
  {
  }

  /** p[0:1, :, :] on parts that share a first size of 2: B loses a matrix and A does not. */
  lemma GetItemsFails()
    ensures var (p, items) := (Lora(Blank([2, 1, 1]), Blank([2, 1, 1])), [Slice(Some(0), Some(1), 1), FULL, FULL]);
            p.Valid() && p.Constructed() && GetItems(p, items).Ok? && !StandsFor(GetItems(p, items).value, p, items)
  {
    BlankPair([2, 1, 1], [2, 1, 1]);
    var p, x := Lora(Blank([2, 1, 1]), Blank([2, 1, 1])), Slice(Some(0), Some(1), 1);
    FirstOfTwo();
    hide Blank, Resolve, Lora.Valid, Lora.Constructed, GetItems, StandsFor;
    var items := ([x] + [FULL]) + [FULL];
    assert items == [x, FULL, FULL];
    assert p.A.shape[..1] == [2] && p.B.shape[..1] == [2];
    FullSpan(1);
    GetItemsSucceeds(p, [x], FULL, FULL);
    GetItemsCommutes(p, items);
    assert items[..1] == [x];
    assert Keeps([x][0], [2][0], [2][0]) == Keeps(x, 2, 2);
  }

  lemma FirstOfTwo()
    ensures var x := Slice(Some(0), Some(1), 1); Resolve(x, 2) == Ok(Span(0, 1, 1)) && !Keeps(x, 2, 2)
  {
  }

  /** p[1:] on a first size of 1 in A and 3 in B: two matrices are left of B and none of A. */
  lemma GetOneFails()
    ensures var (p, item) := (Lora(Blank([1, 1, 1]), Blank([3, 1, 1])), Slice(Some(1), None, 1));
            && p.Valid() && p.Constructed() && GetOne(p, item).Ok?
            && !StandsFor(GetOne(p, item).value, p, Padded([item], 3))
  {
    BlankPair([1, 1, 1], [3, 1, 1]);
    var p, item := Lora(Blank([1, 1, 1]), Blank([3, 1, 1])), Slice(Some(1), None, 1);
    BeyondFirst();
    hide Blank, Resolve, Lora.Valid, StandsFor;
    GetOneSucceeds(p, item);
    GetOneCommutes(p, item);
  }

  lemma BeyondFirst()
    ensures var item := Slice(Some(1), None, 1);
            Resolve(item, 1) == Ok(Span(1, 1, 0)) && Resolve(item, 3) == Ok(Span(1, 1, 2))
  {
  }

  /** A slice always gives a pair, above two dimensions. */
  lemma GetOneSucceeds(p: Lora, item: Item)
    requires p.Valid() && |p.A.shape| > 2 && item.Slice?
    requires Resolve(item, p.A.shape[0]).Ok? && Resolve(item, p.B.shape[0]).Ok?
    ensures GetOne(p, item).Ok?
  {
    var n := |p.A.shape|;
    SliceFits(p, item);
    GetOneIs(p, item);
    PaddedHead(item, n);
    hide *;
    var items := [item] + Fulls(n - 1);
    HeadAndFulls(item, p.A.shape);
    HeadAndFulls(item, p.B.shape);
    IndexResolved(p.A, items);
    IndexResolved(p.B, items);
    HeadIndexShape(p.A, item);
    HeadIndexShape(p.B, item);
    HeadsFit(p, Index(p.A, items), Index(p.B, items), Resolve(item, p.A.shape[0]).value.count,
             Resolve(item, p.B.shape[0]).value.count);
  }

  lemma SliceFits(p: Lora, item: Item)
    requires p.Valid() && |p.A.shape| > 2 && item.Slice?
    requires Resolve(item, p.A.shape[0]).Ok? && Resolve(item, p.B.shape[0]).Ok?
    ensures p.Constructed() && |p.A.shape| == |p.B.shape|
    ensures Resolve(item, p.A.shape[0]).value.Span? && Resolve(item, p.B.shape[0]).value.Span?
  {
    hide Resolve;
    PlaceKind(item, p.A.shape[0]);
    PlaceKind(item, p.B.shape[0]);
  }

  lemma HeadsFit(p: Lora, a: Result<Tensor>, b: Result<Tensor>, s: nat, t: nat)
    requires p.Constructed() && |p.A.shape| > 2 && a.Ok? && b.Ok?
    requires a.value.shape == [s] + p.A.shape[1..] && b.value.shape == [t] + p.B.shape[1..]
    ensures Paired(a, b).Ok?
  {
  }
}
