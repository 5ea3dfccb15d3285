/** Indexing a tensor with integers and slices, and both parts of a pair with items that fit each other. */
module LoraIndexing {
  import opened Bits
  import opened Tensors
  import opened LoraTensor

  // ----- indexing a tensor

  /** An integer, which drops its dimension, or a slice with a positive step. */
  datatype Item = Pick(i: int) | Slice(start: Option<int>, stop: Option<int>, step: nat)

  const FULL: Item := Slice(None, None, 1)

  /** An item resolved against its dimension. */
  datatype Place = Fixed(pos: nat) | Span(start: nat, step: nat, count: nat)

  function Clamp(i: int, n: nat): nat {
    var j := if i < 0 then i + n else i;
    if j < 0 then 0 else if j > n then n else j
  }

  /** Python's rules for negative, missing and overlong bounds. */
  function Resolve(item: Item, n: nat): Result<Place> {
    match item
    case Pick(i) => if -1 * n <= i < n then Ok(Fixed(if i < 0 then i + n else i)) else Err(IndexOutOfRange)
    case Slice(start, stop, step) =>
      if step == 0 then Err(IndexOutOfRange)
      else
        var lo := if start.None? then 0 else Clamp(start.value, n);
        var hi := if stop.None? then n else Clamp(stop.value, n);
        Ok(Span(lo, step, if hi <= lo then 0 else (hi - lo + step - 1) / step))
  }

  predicate Resolved(items: seq<Item>, shape: seq<nat>) {
    |items| == |shape| && forall i :: 0 <= i < |items| ==> Resolve(items[i], shape[i]).Ok?
  }

  function IndexedShape(items: seq<Item>, shape: seq<nat>): seq<nat>
    requires Resolved(items, shape)
  {
    if items == [] then []
    else
      var last := Resolve(items[|items| - 1], shape[|shape| - 1]).value;
      var init := IndexedShape(items[..|items| - 1], shape[..|shape| - 1]);
      if last.Span? then init + [last.count] else init
  }

  /** The source index of an index of the result. */
  function SourceOf(items: seq<Item>, shape: seq<nat>, idx: seq<nat>): (r: seq<nat>)
    requires Resolved(items, shape) && |idx| == |IndexedShape(items, shape)|
    ensures |r| == |shape|
  {
    if items == [] then []
    else
      var last := Resolve(items[|items| - 1], shape[|shape| - 1]).value;
      var us, ss := items[..|items| - 1], shape[..|shape| - 1];
      if last.Span? then SourceOf(us, ss, idx[..|idx| - 1]) + [last.start + last.step * idx[|idx| - 1]]
      else SourceOf(us, ss, idx) + [last.pos]
  }

  function Index(t: Tensor, items: seq<Item>): Result<Tensor> {
    if !Resolved(items, t.shape) then Err(IndexOutOfRange)
    else
      var shape := IndexedShape(items, t.shape);
      Ok(Build(shape, idx => if |idx| == |shape| then t.At(SourceOf(items, t.shape, idx)) else 0.0))
  }

  lemma SpanInside(item: Item, n: nat, i: nat)
    requires item.Slice? && Resolve(item, n).Ok? && i < Resolve(item, n).value.count
    ensures var s := Resolve(item, n).value; s.start + s.step * i < n
  {
    var s := Resolve(item, n).value;
    var hi := if item.stop.None? then n else Clamp(item.stop.value, n);
    var d, q := hi - s.start + s.step - 1, s.count;
    assert d == d / s.step * s.step + d % s.step;
    assert (i + 1) * s.step <= q * s.step by { MulMono(i + 1, q, s.step); }
    assert (i + 1) * s.step == s.step * i + s.step;
  }

  lemma {:induction false} SourceOfInRange(items: seq<Item>, shape: seq<nat>, idx: seq<nat>)
    requires Resolved(items, shape) && InRange(IndexedShape(items, shape), idx)
    ensures InRange(shape, SourceOf(items, shape, idx))
  {
    hide Resolve;
    if items != [] {
      var n := |items|;
      var last := Resolve(items[n - 1], shape[n - 1]).value;
      var us, ss := items[..n - 1], shape[..n - 1];
      assert Resolved(us, ss);
      PlaceKind(items[n - 1], shape[n - 1]);
      if last.Span? {
        SourceOfInRange(us, ss, idx[..|idx| - 1]);
        assert idx[|idx| - 1] < IndexedShape(items, shape)[|idx| - 1];
        SpanInside(items[n - 1], shape[n - 1], idx[|idx| - 1]);
      } else {
        SourceOfInRange(us, ss, idx);
      }
    }
  }

  lemma PlaceKind(item: Item, n: nat)
    requires Resolve(item, n).Ok?
    ensures Resolve(item, n).value.Span? <==> item.Slice?
    ensures Resolve(item, n).value.Fixed? ==> Resolve(item, n).value.pos < n
  {
  }

  lemma IndexAt(t: Tensor, items: seq<Item>, idx: seq<nat>)
    requires Resolved(items, t.shape) && InRange(IndexedShape(items, t.shape), idx)
    ensures Index(t, items).value.shape == IndexedShape(items, t.shape) && Index(t, items).value.Valid()
    ensures Index(t, items).value.At(idx) == t.At(SourceOf(items, t.shape, idx))
  {
    hide Build, SourceOf, IndexedShape, Resolved;
    var shape := IndexedShape(items, t.shape);
    AtBuild(shape, i => if |i| == |shape| then t.At(SourceOf(items, t.shape, i)) else 0.0, idx);
  }

  lemma IndexShape(t: Tensor, items: seq<Item>)
    requires Resolved(items, t.shape)
    ensures Index(t, items).value.shape == IndexedShape(items, t.shape) && Index(t, items).value.Valid()
  {
    hide Build;
  }

  lemma ResolvedAppend(items: seq<Item>, shape: seq<nat>, item: Item, n: nat)
    requires |items| == |shape|
    ensures Resolved(items + [item], shape + [n]) <==> Resolved(items, shape) && Resolve(item, n).Ok?
  {
    hide Resolve;
    var us, ss := items + [item], shape + [n];
    if Resolved(us, ss) {
      assert Resolve(us[|items|], ss[|items|]).Ok?;
      forall i | 0 <= i < |items| ensures Resolve(items[i], shape[i]).Ok? {
        assert Resolve(us[i], ss[i]).Ok?;
      }
    }
  }

  lemma IndexedAppend(items: seq<Item>, shape: seq<nat>, item: Item, n: nat)
    requires |items| == |shape| && Resolved(items, shape) && Resolve(item, n).Ok?
             && Resolved(items + [item], shape + [n])
    ensures var s := Resolve(item, n).value;
            IndexedShape(items + [item], shape + [n]) ==
            if s.Span? then IndexedShape(items, shape) + [s.count] else IndexedShape(items, shape)
  {
    hide Resolve, Resolved;
    assert (items + [item])[..|items|] == items && (shape + [n])[..|shape|] == shape;
  }

  lemma SourceAppend(items: seq<Item>, shape: seq<nat>, item: Item, n: nat, idx: seq<nat>, k: nat)
    requires Resolved(items + [item], shape + [n]) && |items| == |shape| && item.Slice? && Resolved(items, shape)
    requires |idx| == |IndexedShape(items, shape)|
    ensures |IndexedShape(items + [item], shape + [n])| == |idx| + 1
    ensures var s := Resolve(item, n).value;
            SourceOf(items + [item], shape + [n], idx + [k]) == SourceOf(items, shape, idx) + [s.start + s.step * k]
  {
    ResolvedAppend(items, shape, item, n);
    IndexedAppend(items, shape, item, n);
    PlaceKind(item, n);
    hide Resolve, Resolved;
    var us, ss := items + [item], shape + [n];
    assert us[..|items|] == items && ss[..|shape|] == shape && (idx + [k])[..|idx|] == idx;
  }

  lemma FullSpan(n: nat)
    ensures Resolve(FULL, n) == Ok(Span(0, 1, n))
  {
  }

  lemma SourcePick(items: seq<Item>, shape: seq<nat>, item: Item, n: nat, idx: seq<nat>)
    requires |items| == |shape| && Resolved(items + [item], shape + [n]) && item.Pick? && Resolved(items, shape)
    requires |idx| == |IndexedShape(items, shape)|
    ensures Resolve(item, n).Ok? && IndexedShape(items + [item], shape + [n]) == IndexedShape(items, shape)
    ensures SourceOf(items + [item], shape + [n], idx) == SourceOf(items, shape, idx) + [Resolve(item, n).value.pos]
  {
    ResolvedAppend(items, shape, item, n);
    IndexedAppend(items, shape, item, n);
    PlaceKind(item, n);
    hide Resolve, Resolved;
    var us, ss := items + [item], shape + [n];
    assert us[..|items|] == items && ss[..|shape|] == shape;
  }

  // ----- leading dimensions of a pair

  predicate Broadcasts(ashape: seq<nat>, bshape: seq<nat>) {
    |ashape| == |bshape| && forall i :: 0 <= i < |ashape| ==> ashape[i] == 1 || ashape[i] == bshape[i]
  }

  /** A's index for an index of the product: 0 wherever A has a single entry. */
  function Collapse(ashape: seq<nat>, idx: seq<nat>): (r: seq<nat>)
    requires |ashape| == |idx|
    ensures |r| == |idx|
  {
    seq(|idx|, i requires 0 <= i < |idx| => if ashape[i] == 1 then 0 else idx[i])
  }

  lemma CollapseAppend(ashape: seq<nat>, idx: seq<nat>, a: nat, k: nat)
    requires |ashape| == |idx|
    ensures Collapse(ashape + [a], idx + [k]) == Collapse(ashape, idx) + [if a == 1 then 0 else k]
  {
  }

  function Step(s: Place, i: nat): nat {
    match s case Fixed(pos) => pos case Span(start, step, _) => start + step * i
  }

  /**
   * Item `x` for a dimension of size `a` in A and item `y` for the same dimension, of size `b`, in B: what is left
   * of A still broadcasts, and reads the entry that B's position stands for.
   */
  ghost predicate Aligned(x: Item, a: nat, y: Item, b: nat) {
    && Resolve(x, a).Ok? && Resolve(y, b).Ok? && (x.Slice? <==> y.Slice?)
    && AlignedPlaces(Resolve(x, a).value, a, Resolve(y, b).value)
  }

  ghost predicate AlignedPlaces(t: Place, a: nat, s: Place) {
    && (t.Span? <==> s.Span?)
    && (s.Fixed? ==> t.pos == if a == 1 then 0 else s.pos)
    && (s.Span? ==> t.count == 1 || t.count == s.count)
    && (s.Span? ==> forall k: nat :: k < s.count ==> SameEntry(t, a, s, k))
  }

  predicate SameEntry(t: Place, a: nat, s: Place, k: nat) {
    Step(t, if t.Span? && t.count == 1 then 0 else k) == if a == 1 then 0 else Step(s, k)
  }

  ghost predicate LeadOk(la: seq<Item>, al: seq<nat>, lb: seq<Item>, bl: seq<nat>) {
    && |la| == |al| == |lb| == |bl|
    && forall i :: 0 <= i < |la| ==> Aligned(la[i], al[i], lb[i], bl[i])
  }

  lemma LeadOkInit(la: seq<Item>, al: seq<nat>, lb: seq<Item>, bl: seq<nat>, x: Item, a: nat, y: Item, b: nat)
    requires |la| == |al| == |lb| == |bl| && LeadOk(la + [x], al + [a], lb + [y], bl + [b])
    ensures LeadOk(la, al, lb, bl) && Aligned(x, a, y, b)
  {
    hide Aligned;
    var n := |la|;
    assert Aligned((la + [x])[n], (al + [a])[n], (lb + [y])[n], (bl + [b])[n]);
    forall i | 0 <= i < n ensures Aligned(la[i], al[i], lb[i], bl[i]) {
      assert Aligned((la + [x])[i], (al + [a])[i], (lb + [y])[i], (bl + [b])[i]);
    }
  }

  lemma BroadcastsAppend(s: seq<nat>, t: seq<nat>, a: nat, b: nat)
    requires Broadcasts(s, t) && (a == 1 || a == b)
    ensures Broadcasts(s + [a], t + [b])
  {
  }

  lemma LeadResolved(la: seq<Item>, al: seq<nat>, lb: seq<Item>, bl: seq<nat>)
    requires LeadOk(la, al, lb, bl)
    ensures Resolved(la, al) && Resolved(lb, bl)
  {
    hide Resolve, AlignedPlaces;
  }

  /** What is left of A's leading dimensions broadcasts against what is left of B's. */
  lemma {:induction false} LeadBroadcasts(la: seq<Item>, al: seq<nat>, lb: seq<Item>, bl: seq<nat>)
    requires LeadOk(la, al, lb, bl) && Resolved(la, al) && Resolved(lb, bl)
    ensures Broadcasts(IndexedShape(la, al), IndexedShape(lb, bl))
  {
    if la != [] {
      var n := |la|;
      var ia, sa, ib, sb := la[..n - 1], al[..n - 1], lb[..n - 1], bl[..n - 1];
      var x, a, y, b := la[n - 1], al[n - 1], lb[n - 1], bl[n - 1];
      assert la == ia + [x] && al == sa + [a] && lb == ib + [y] && bl == sb + [b];
      LeadOkInit(ia, sa, ib, sb, x, a, y, b);
      ResolvedAppend(ia, sa, x, a);
      ResolvedAppend(ib, sb, y, b);
      var t, s := Resolve(x, a).value, Resolve(y, b).value;
      assert AlignedPlaces(t, a, s);
      hide LeadOk, Aligned, Resolve, Resolved, IndexedShape, Broadcasts;
      LeadBroadcasts(ia, sa, ib, sb);
      IndexedAppend(ia, sa, x, a);
      IndexedAppend(ib, sb, y, b);
      if s.Span? { BroadcastsAppend(IndexedShape(ia, sa), IndexedShape(ib, sb), t.count, s.count); }
    }
  }

  /** A reads what B's index, collapsed to A's sizes, points to. */
  ghost predicate SourcesAgree(la: seq<Item>, al: seq<nat>, lb: seq<Item>, bl: seq<nat>, idx: seq<nat>)
    requires |la| == |al| == |lb| == |bl| && Resolved(la, al) && Resolved(lb, bl)
    requires |idx| == |IndexedShape(lb, bl)| == |IndexedShape(la, al)|
  {
    SourceOf(la, al, Collapse(IndexedShape(la, al), idx)) == Collapse(al, SourceOf(lb, bl, idx))
  }

  lemma {:induction false} LeadSources(la: seq<Item>, al: seq<nat>, lb: seq<Item>, bl: seq<nat>, idx: seq<nat>)
    requires LeadOk(la, al, lb, bl) && Resolved(la, al) && Resolved(lb, bl)
    requires InRange(IndexedShape(lb, bl), idx) && |IndexedShape(la, al)| == |idx|
    ensures SourcesAgree(la, al, lb, bl, idx)
    decreases |la|, 1
  {
    if la != [] {
      hide Aligned, Resolve, Resolved, IndexedShape, SourcesAgree;
      var n := |la|;
      assert la == la[..n - 1] + [la[n - 1]] && al == al[..n - 1] + [al[n - 1]];
      assert lb == lb[..n - 1] + [lb[n - 1]] && bl == bl[..n - 1] + [bl[n - 1]];
      LeadSourcesAppend(la[..n - 1], al[..n - 1], lb[..n - 1], bl[..n - 1], la[n - 1], al[n - 1], lb[n - 1], bl[n - 1],
                        idx);
    }
  }

  lemma LeadInit(ia: seq<Item>, sa: seq<nat>, ib: seq<Item>, sb: seq<nat>, x: Item, a: nat, y: Item, b: nat)
    requires |ia| == |sa| == |ib| == |sb| && LeadOk(ia + [x], sa + [a], ib + [y], sb + [b])
    requires Resolved(ia + [x], sa + [a]) && Resolved(ib + [y], sb + [b])
    ensures LeadOk(ia, sa, ib, sb) && Resolved(ia, sa) && Resolved(ib, sb)
    ensures Aligned(x, a, y, b) && Resolve(x, a).Ok? && Resolve(y, b).Ok? && (x.Slice? <==> y.Slice?)
    ensures Resolve(y, b).value.Span? <==> y.Slice?
    ensures |IndexedShape(ia, sa)| == |IndexedShape(ib, sb)|
    ensures y.Pick? ==> IndexedShape(ib + [y], sb + [b]) == IndexedShape(ib, sb)
    ensures y.Pick? ==> |IndexedShape(ia + [x], sa + [a])| == |IndexedShape(ia, sa)|
    ensures y.Slice? ==> IndexedShape(ib + [y], sb + [b]) == IndexedShape(ib, sb) + [Resolve(y, b).value.count]
    ensures y.Slice? ==> |IndexedShape(ia + [x], sa + [a])| == |IndexedShape(ia, sa)| + 1
  {
    LeadOkInit(ia, sa, ib, sb, x, a, y, b);
    ResolvedAppend(ia, sa, x, a);
    ResolvedAppend(ib, sb, y, b);
    PlaceKind(x, a);
    PlaceKind(y, b);
    assert x.Slice? <==> y.Slice?;
    LeadBroadcasts(ia, sa, ib, sb);
    BroadcastsLength(IndexedShape(ia, sa), IndexedShape(ib, sb));
    hide *;
    IndexedAppend(ia, sa, x, a);
    IndexedAppend(ib, sb, y, b);
  }

  lemma LeadSourcesAppend(ia: seq<Item>, sa: seq<nat>, ib: seq<Item>, sb: seq<nat>, x: Item, a: nat, y: Item, b: nat,
                          idx: seq<nat>)
    requires |ia| == |sa| == |ib| == |sb| && LeadOk(ia + [x], sa + [a], ib + [y], sb + [b])
    requires Resolved(ia + [x], sa + [a]) && Resolved(ib + [y], sb + [b])
    requires InRange(IndexedShape(ib + [y], sb + [b]), idx) && |IndexedShape(ia + [x], sa + [a])| == |idx|
    ensures SourcesAgree(ia + [x], sa + [a], ib + [y], sb + [b], idx)
    decreases |ia| + 1, 0
  {
    hide *;
    LeadInit(ia, sa, ib, sb, x, a, y, b);
    InRangeLength(IndexedShape(ib + [y], sb + [b]), idx);
    if y.Pick? {
      LeadSources(ia, sa, ib, sb, idx);
      LeadSourcePick(ia, sa, ib, sb, x, a, y, b, idx);
    } else {
      var i', k := idx[..|idx| - 1], idx[|idx| - 1];
      assert idx == i' + [k];
      InRangeInit(IndexedShape(ib, sb), Resolve(y, b).value.count, i', k);
      LeadSources(ia, sa, ib, sb, i');
      LeadSourceSlice(ia, sa, ib, sb, x, a, y, b, i', k);
    }
  }

  lemma BroadcastsLength(s: seq<nat>, t: seq<nat>)
    requires Broadcasts(s, t)
    ensures |s| == |t|
  {
  }

  lemma InRangeInit(s: seq<nat>, a: nat, u: seq<nat>, k: nat)
    requires InRange(s + [a], u + [k])
    ensures |s| == |u| && InRange(s, u) && k < a
  {
    assert (u + [k])[|s|] < (s + [a])[|s|];
    forall i | 0 <= i < |s| ensures u[i] < s[i] { assert (u + [k])[i] < (s + [a])[i]; }
  }

  lemma LeadSourcePick(ia: seq<Item>, sa: seq<nat>, ib: seq<Item>, sb: seq<nat>, x: Item, a: nat, y: Item, b: nat,
                       idx: seq<nat>)
    requires |ia| == |sa| == |ib| == |sb| && Aligned(x, a, y, b) && y.Pick?
    requires Resolved(ia, sa) && Resolved(ib, sb) && Resolved(ia + [x], sa + [a]) && Resolved(ib + [y], sb + [b])
    requires |idx| == |IndexedShape(ib, sb)| == |IndexedShape(ia, sa)| && SourcesAgree(ia, sa, ib, sb, idx)
    requires |idx| == |IndexedShape(ib + [y], sb + [b])| == |IndexedShape(ia + [x], sa + [a])|
    ensures SourcesAgree(ia + [x], sa + [a], ib + [y], sb + [b], idx)
  {
    PlaceKind(x, a);
    PlaceKind(y, b);
    hide Resolve, Resolved, IndexedShape, SourceOf;
    SourcePick(ib, sb, y, b, idx);
    SourcePick(ia, sa, x, a, Collapse(IndexedShape(ia, sa), idx));
    CollapseAppend(sa, SourceOf(ib, sb, idx), a, Resolve(y, b).value.pos);
  }

  lemma LeadSourceSlice(ia: seq<Item>, sa: seq<nat>, ib: seq<Item>, sb: seq<nat>, x: Item, a: nat, y: Item, b: nat,
                        idx: seq<nat>, k: nat)
    requires |ia| == |sa| == |ib| == |sb| && Aligned(x, a, y, b) && y.Slice?
    requires Resolved(ia, sa) && Resolved(ib, sb) && Resolved(ia + [x], sa + [a]) && Resolved(ib + [y], sb + [b])
    requires |idx| == |IndexedShape(ib, sb)| == |IndexedShape(ia, sa)| && SourcesAgree(ia, sa, ib, sb, idx)
    requires Resolve(y, b).Ok? && Resolve(y, b).value.Span? && k < Resolve(y, b).value.count
    requires |idx| + 1 == |IndexedShape(ib + [y], sb + [b])| == |IndexedShape(ia + [x], sa + [a])|
    ensures SourcesAgree(ia + [x], sa + [a], ib + [y], sb + [b], idx + [k])
  {
    hide *;
    AlignedSlices(x, a, y, b, k);
    SourcesAgreeIs(ia, sa, ib, sb, idx);
    SourcesAgreeIs(ia + [x], sa + [a], ib + [y], sb + [b], idx + [k]);
    var t, s := Resolve(x, a).value, Resolve(y, b).value;
    var small := IndexedShape(ia, sa);
    IndexedAppend(ia, sa, x, a);
    SourceAppend(ib, sb, y, b, idx, k);
    CollapseAppend(small, idx, t.count, k);
    SourceAppend(ia, sa, x, a, Collapse(small, idx), if t.count == 1 then 0 else k);
    CollapseAppend(sa, SourceOf(ib, sb, idx), a, s.start + s.step * k);
  }

  lemma SourcesAgreeIs(la: seq<Item>, al: seq<nat>, lb: seq<Item>, bl: seq<nat>, idx: seq<nat>)
    requires |la| == |al| == |lb| == |bl| && Resolved(la, al) && Resolved(lb, bl)
    requires |idx| == |IndexedShape(lb, bl)| == |IndexedShape(la, al)|
    ensures SourcesAgree(la, al, lb, bl, idx) <==>
            SourceOf(la, al, Collapse(IndexedShape(la, al), idx)) == Collapse(al, SourceOf(lb, bl, idx))
  {
    hide SourceOf, Collapse, IndexedShape, Resolved;
  }

  /** The entry A reads for entry `k` of B. */
  lemma AlignedSlices(x: Item, a: nat, y: Item, b: nat, k: nat)
    requires Aligned(x, a, y, b) && y.Slice? && Resolve(y, b).Ok? && Resolve(y, b).value.Span?
    requires k < Resolve(y, b).value.count
    ensures x.Slice? && Resolve(x, a).Ok? && Resolve(x, a).value.Span?
    ensures var (t, s) := (Resolve(x, a).value, Resolve(y, b).value);
            t.start + t.step * (if t.count == 1 then 0 else k) == if a == 1 then 0 else s.start + s.step * k
  {
    PlaceKind(x, a);
    hide Resolve;
    assert SameEntry(Resolve(x, a).value, a, Resolve(y, b).value, k);
  }

  // ----- rows and columns

  lemma Split2(s: seq<nat>)
    requires |s| >= 2
    ensures s == (s[..|s| - 2] + [s[|s| - 2]]) + [s[|s| - 1]]
    ensures s[..|s| - 1] == s[..|s| - 2] + [s[|s| - 2]]
  {
  }

  lemma SplitItems2(s: seq<Item>)
    requires |s| >= 2
    ensures s == (s[..|s| - 2] + [s[|s| - 2]]) + [s[|s| - 1]]
    ensures s[..|s| - 1] == s[..|s| - 2] + [s[|s| - 2]]
  {
  }

  /** Two trailing slices of the indexed shape and of source indices. */
  lemma TwoSlices(li: seq<Item>, ls: seq<nat>, x: Item, a: nat, y: Item, b: nat)
    requires |li| == |ls| && x.Slice? && y.Slice? && Resolved((li + [x]) + [y], (ls + [a]) + [b])
    ensures Resolved(li, ls) && Resolve(x, a).Ok? && Resolve(y, b).Ok?
    ensures Resolve(x, a).value.Span? && Resolve(y, b).value.Span?
    ensures IndexedShape((li + [x]) + [y], (ls + [a]) + [b]) ==
            (IndexedShape(li, ls) + [Resolve(x, a).value.count]) + [Resolve(y, b).value.count]
  {
    hide Resolve, IndexedShape;
    ResolvedAppend(li + [x], ls + [a], y, b);
    ResolvedAppend(li, ls, x, a);
    PlaceKind(x, a);
    PlaceKind(y, b);
    hide Resolved;
    IndexedAppend(li + [x], ls + [a], y, b);
    IndexedAppend(li, ls, x, a);
  }

  lemma TwoSources(li: seq<Item>, ls: seq<nat>, x: Item, a: nat, y: Item, b: nat, idx: seq<nat>, i: nat, j: nat)
    requires |li| == |ls| && x.Slice? && y.Slice? && Resolved((li + [x]) + [y], (ls + [a]) + [b])
    requires Resolved(li, ls) && |idx| == |IndexedShape(li, ls)|
    requires |IndexedShape((li + [x]) + [y], (ls + [a]) + [b])| == |idx| + 2
    requires Resolve(x, a).Ok? && Resolve(y, b).Ok?
    ensures SourceOf((li + [x]) + [y], (ls + [a]) + [b], (idx + [i]) + [j]) ==
            (SourceOf(li, ls, idx) + [Step(Resolve(x, a).value, i)]) + [Step(Resolve(y, b).value, j)]
  {
    hide Resolve, IndexedShape, SourceOf;
    TwoSlices(li, ls, x, a, y, b);
    ResolvedAppend(li + [x], ls + [a], y, b);
    hide Resolved;
    IndexedAppend(li, ls, x, a);
    SourceAppend(li, ls, x, a, idx, i);
    SourceAppend(li + [x], ls + [a], y, b, idx + [i], j);
  }

  lemma IndexResolved(t: Tensor, items: seq<Item>)
    ensures Index(t, items).Ok? <==> Resolved(items, t.shape)
  {
    hide Build, Resolved;
  }

  /**
   * Indexing both parts of a pair: leading dimensions with `la` and `lb`, B's rows with `row`, A's columns with
   * `col`, and the rank dimension of both with everything.
   */
  datatype Parts = Parts(p: Lora, la: seq<Item>, al: seq<nat>, lb: seq<Item>, bl: seq<nat>,
                         rank: nat, columns: nat, rows: nat, row: Item, col: Item) {
    ghost predicate Fit() {
      && p.Valid() && p.A.shape == (al + [rank]) + [columns] && p.B.shape == (bl + [rows]) + [rank]
      && LeadOk(la, al, lb, bl) && row.Slice? && col.Slice?
      && Resolved(la, al) && Resolved(lb, bl)
      && Resolved((la + [FULL]) + [col], (al + [rank]) + [columns])
      && Resolved((lb + [row]) + [FULL], (bl + [rows]) + [rank])
      && Resolved((lb + [row]) + [col], (bl + [rows]) + [columns])
    }

    ghost function Indexed(): Lora
      requires Fit()
    {
      Lora(Index(p.A, (la + [FULL]) + [col]).value, Index(p.B, (lb + [row]) + [FULL]).value)
    }

    /** The index of the product that an index of the result stands for. */
    ghost function Source(u: seq<nat>, i: nat, j: nat): seq<nat>
      requires Fit() && |u| == |IndexedShape(lb, bl)|
    {
      TwoSlices(lb, bl, row, rows, col, columns);
      (SourceOf(lb, bl, u) + [Step(Resolve(row, rows).value, i)]) + [Step(Resolve(col, columns).value, j)]
    }
  }

  lemma PartsShapes(t: Parts)
    requires t.Fit()
    ensures Resolved(t.la, t.al) && Resolved(t.lb, t.bl)
    ensures Resolve(t.row, t.rows).Ok? && Resolve(t.row, t.rows).value.Span?
    ensures Resolve(t.col, t.columns).Ok? && Resolve(t.col, t.columns).value.Span?
    ensures Broadcasts(IndexedShape(t.la, t.al), IndexedShape(t.lb, t.bl))
    ensures var q := t.Indexed();
            && q.A.Valid() && q.B.Valid()
            && q.A.shape == (IndexedShape(t.la, t.al) + [t.rank]) + [Resolve(t.col, t.columns).value.count]
            && q.B.shape == (IndexedShape(t.lb, t.bl) + [Resolve(t.row, t.rows).value.count]) + [t.rank]
    ensures IndexedShape((t.lb + [t.row]) + [t.col], (t.bl + [t.rows]) + [t.columns]) ==
            (IndexedShape(t.lb, t.bl) + [Resolve(t.row, t.rows).value.count]) + [Resolve(t.col, t.columns).value.count]
  {
    FullSpan(t.rank);
    LeadBroadcasts(t.la, t.al, t.lb, t.bl);
    hide Resolve, IndexedShape, Index, Resolved, Aligned;
    TwoSlices(t.lb, t.bl, t.row, t.rows, t.col, t.columns);
    TwoSlices(t.lb, t.bl, t.row, t.rows, FULL, t.rank);
    TwoSlices(t.la, t.al, FULL, t.rank, t.col, t.columns);
    IndexShape(t.p.A, (t.la + [FULL]) + [t.col]);
    IndexShape(t.p.B, (t.lb + [t.row]) + [FULL]);
  }

  lemma PartsFit(t: Parts)
    requires t.Fit()
    ensures t.p.Constructed() && t.p.A.shape == (t.al + [t.rank]) + [t.columns]
    ensures |t.al| == |t.bl| == |t.la| == |t.lb|
  {
    hide Resolve, Resolved, Aligned;
  }

  lemma InRangeAppend2(s: seq<nat>, a: nat, b: nat, u: seq<nat>, i: nat, j: nat)
    requires InRange(s, u) && i < a && j < b
    ensures InRange((s + [a]) + [b], (u + [i]) + [j])
  {
  }

  lemma CollapseInRange(small: seq<nat>, lead: seq<nat>, u: seq<nat>)
    requires Broadcasts(small, lead) && InRange(lead, u)
    ensures InRange(small, Collapse(small, u))
  {
  }

  lemma SourceIs(t: Parts, u: seq<nat>, i: nat, j: nat)
    requires t.Fit() && |u| == |IndexedShape(t.lb, t.bl)|
    requires Resolve(t.row, t.rows).Ok? && Resolve(t.col, t.columns).Ok?
    ensures var (v, x, y) := (SourceOf(t.lb, t.bl, u), Step(Resolve(t.row, t.rows).value, i),
            Step(Resolve(t.col, t.columns).value, j));
            t.Source(u, i, j) == (v + [x]) + [y] && t.Source(u, i, j)[..|t.bl| + 1] == v + [x]
  {
    hide IndexedShape, SourceOf, Resolve, Resolved, LeadOk;
  }

  lemma BSource(t: Parts, u: seq<nat>, i: nat, k: nat)
    requires t.Fit() && |u| == |IndexedShape(t.lb, t.bl)|
    requires Resolve(t.row, t.rows).Ok?
    requires |IndexedShape((t.lb + [t.row]) + [FULL], (t.bl + [t.rows]) + [t.rank])| == |u| + 2
    ensures SourceOf((t.lb + [t.row]) + [FULL], (t.bl + [t.rows]) + [t.rank], (u + [i]) + [k]) ==
            (SourceOf(t.lb, t.bl, u) + [Step(Resolve(t.row, t.rows).value, i)]) + [k]
  {
    FullSpan(t.rank);
    PartsFit(t);
    hide IndexedShape, SourceOf, Resolve, Resolved, Lora.Valid, InRange, LeadOk;
    TwoSources(t.lb, t.bl, t.row, t.rows, FULL, t.rank, u, i, k);
  }

  lemma BFactor(t: Parts, u: seq<nat>, i: nat, k: nat)
    requires t.Fit() && InRange(IndexedShape(t.lb, t.bl), u) && k < t.rank
    requires Resolve(t.row, t.rows).Ok? && i < Resolve(t.row, t.rows).value.count
    ensures t.Indexed().B.At((u + [i]) + [k]) ==
            t.p.B.At((SourceOf(t.lb, t.bl, u) + [Step(Resolve(t.row, t.rows).value, i)]) + [k])
  {
    PartsShapes(t);
    FullSpan(t.rank);
    InRangeAppend2(IndexedShape(t.lb, t.bl), Resolve(t.row, t.rows).value.count, t.rank, u, i, k);
    hide IndexedShape, Index, SourceOf, Tensor.At, LeadOk, Resolve, Resolved, InRange, Lora.Valid;
    var items := (t.lb + [t.row]) + [FULL];
    IndexShape(t.p.B, items);
    BSource(t, u, i, k);
    IndexAt(t.p.B, items, (u + [i]) + [k]);
  }

  lemma ASource(t: Parts, u: seq<nat>, j: nat, k: nat)
    requires t.Fit() && InRange(IndexedShape(t.lb, t.bl), u) && |IndexedShape(t.la, t.al)| == |u|
    requires Resolve(t.col, t.columns).Ok?
    requires |IndexedShape((t.la + [FULL]) + [t.col], (t.al + [t.rank]) + [t.columns])| == |u| + 2
    ensures SourceOf((t.la + [FULL]) + [t.col], (t.al + [t.rank]) + [t.columns],
                     (Collapse(IndexedShape(t.la, t.al), u) + [k]) + [j]) ==
            (Collapse(t.al, SourceOf(t.lb, t.bl, u)) + [k]) + [Step(Resolve(t.col, t.columns).value, j)]
  {
    FullSpan(t.rank);
    LeadSources(t.la, t.al, t.lb, t.bl, u);
    hide IndexedShape, SourceOf, Resolve, Resolved, Collapse, Lora.Valid, InRange;
    TwoSources(t.la, t.al, FULL, t.rank, t.col, t.columns, Collapse(IndexedShape(t.la, t.al), u), k, j);
  }

  lemma AFactor(t: Parts, u: seq<nat>, j: nat, k: nat)
    requires t.Fit() && InRange(IndexedShape(t.lb, t.bl), u) && k < t.rank
    requires Resolve(t.col, t.columns).Ok? && j < Resolve(t.col, t.columns).value.count
    ensures |IndexedShape(t.la, t.al)| == |u| == |IndexedShape(t.lb, t.bl)|
    ensures t.Indexed().A.At((Collapse(IndexedShape(t.la, t.al), u) + [k]) + [j]) ==
            t.p.A.At((Collapse(t.al, SourceOf(t.lb, t.bl, u)) + [k]) + [Step(Resolve(t.col, t.columns).value, j)])
  {
    PartsShapes(t);
    var small := IndexedShape(t.la, t.al);
    CollapseInRange(small, IndexedShape(t.lb, t.bl), u);
    var v := Collapse(small, u);
    InRangeAppend2(small, t.rank, Resolve(t.col, t.columns).value.count, v, k, j);
    hide IndexedShape, Index, SourceOf, Tensor.At, LeadOk, Resolve, Resolved, Broadcasts, Collapse, InRange, Lora.Valid;
    var items := (t.la + [FULL]) + [t.col];
    IndexShape(t.p.A, items);
    ASource(t, u, j, k);
    IndexAt(t.p.A, items, (v + [k]) + [j]);
  }

  lemma AIndexIs(q: Lora, small: seq<nat>, r: nat, c: nat, u: seq<nat>, i: nat, j: nat, k: nat)
    requires q.Constructed() && q.A.shape == (small + [r]) + [c] && |u| == |small|
    ensures q.AIndex((u + [i]) + [j], k) == (Collapse(small, u) + [k]) + [j]
    ensures q.BIndex((u + [i]) + [j], k) == (u + [i]) + [k]
  {
  }

  lemma TermOf(q: Lora, small: seq<nat>, r: nat, c: nat, u: seq<nat>, i: nat, j: nat, k: nat)
    requires q.Constructed() && q.A.shape == (small + [r]) + [c] && |u| == |small|
    ensures q.Term((u + [i]) + [j], k) == q.B.At((u + [i]) + [k]) * q.A.At((Collapse(small, u) + [k]) + [j])
  {
    hide Tensor.At;
    AIndexIs(q, small, r, c, u, i, j, k);
  }

  lemma ValidFromShapes(q: Lora, small: seq<nat>, lead: seq<nat>, rows: nat, rank: nat, columns: nat)
    requires q.A.Valid() && q.B.Valid() && Broadcasts(small, lead)
    requires q.A.shape == (small + [rank]) + [columns] && q.B.shape == (lead + [rows]) + [rank]
    ensures q.Valid() && q.Constructed() && q.Shape() == (lead + [rows]) + [columns]
  {
    hide Tensor.Valid;
    forall e | 0 <= e < |q.A.shape| - 2 ensures q.A.shape[e] == 1 || q.A.shape[e] == q.B.shape[e] {
      assert q.A.shape[e] == small[e] && q.B.shape[e] == lead[e];
    }
  }

  lemma IndexedIsValid(t: Parts)
    requires t.Fit()
    ensures t.Indexed().Valid() && t.Indexed().Constructed()
    ensures t.Indexed().Shape() == IndexedShape((t.lb + [t.row]) + [t.col], (t.bl + [t.rows]) + [t.columns])
  {
    PartsShapes(t);
    hide *;
    ValidFromShapes(t.Indexed(), IndexedShape(t.la, t.al), IndexedShape(t.lb, t.bl),
                    Resolve(t.row, t.rows).value.count, t.rank, Resolve(t.col, t.columns).value.count);
  }

  /** Each term of the indexed pair's product is the term of the original's at the source index. */
  lemma IndexedTerm(t: Parts, u: seq<nat>, i: nat, j: nat, k: nat)
    requires t.Fit() && InRange(IndexedShape(t.lb, t.bl), u) && k < t.rank
    requires Resolve(t.row, t.rows).Ok? && i < Resolve(t.row, t.rows).value.count
    requires Resolve(t.col, t.columns).Ok? && j < Resolve(t.col, t.columns).value.count
    ensures t.Indexed().Constructed() && |t.Indexed().A.shape| == |u| + 2
    ensures t.Indexed().Term((u + [i]) + [j], k) == t.p.Term(t.Source(u, i, j), k)
  {
    hide *;
    PartsShapes(t);
    PartsFit(t);
    IndexedIsValid(t);
    AFactor(t, u, j, k);
    BFactor(t, u, i, k);
    SourceIs(t, u, i, j);
    var v := SourceOf(t.lb, t.bl, u);
    var x, y := Step(Resolve(t.row, t.rows).value, i), Step(Resolve(t.col, t.columns).value, j);
    TermOf(t.Indexed(), IndexedShape(t.la, t.al), t.rank, Resolve(t.col, t.columns).value.count, u, i, j, k);
    TermOf(t.p, t.al, t.rank, t.columns, v, x, y, k);
  }

  lemma IndexedAt(t: Parts, items: seq<Item>, idx: seq<nat>)
    requires t.Fit() && items == (t.lb + [t.row]) + [t.col] && t.Indexed().Constructed()
    requires t.p.Shape() == (t.bl + [t.rows]) + [t.columns]
    requires InRange(IndexedShape(items, t.p.Shape()), idx) && InRange(t.Indexed().Shape(), idx)
    ensures t.Indexed().Product().At(idx) == Index(t.p.Product(), items).value.At(idx)
  {
    hide IndexedShape, Index, SourceOf, Tensor.At, LeadOk, Lora.Term, Lora.Product;
    PartsShapes(t);
    ProductShape(t.p);
    hide Resolve, Resolved;
    var n := |idx|;
    var u, i, j := idx[..n - 2], idx[n - 2], idx[n - 1];
    Split2(idx);
    var s := IndexedShape(t.lb, t.bl);
    var all := IndexedShape(items, t.p.Shape());
    assert InRange(s, u) by {
      forall e | 0 <= e < |s| ensures u[e] < s[e] { assert idx[e] < all[e]; }
    }
    assert i < Resolve(t.row, t.rows).value.count && j < Resolve(t.col, t.columns).value.count by {
      assert idx[n - 2] < all[n - 2] && idx[n - 1] < all[n - 1];
    }
    var src := t.Source(u, i, j);
    IndexAt(t.p.Product(), items, idx);
    TwoSources(t.lb, t.bl, t.row, t.rows, t.col, t.columns, u, i, j);
    SourceOfInRange(items, t.p.Shape(), idx);
    forall k | 0 <= k < t.rank ensures t.Indexed().Term(idx, k) == t.p.Term(src, k) {
      IndexedTerm(t, u, i, j, k);
    }
    SameProductAt(t.Indexed(), idx, t.p, src);
  }

  /** Indexing the parts this way indexes the product. */
  lemma IndexedProduct(t: Parts, items: seq<Item>)
    requires t.Fit() && items == (t.lb + [t.row]) + [t.col] && t.p.Shape() == (t.bl + [t.rows]) + [t.columns]
    ensures t.Indexed().Valid() && Index(t.p.Product(), items) == Ok(t.Indexed().Product())
  {
    IndexedIsValid(t);
    hide IndexedShape, Index, Tensor.At, LeadOk, Lora.Product, Resolve, Resolved, Lora.Shape, InRange;
    var q := t.Indexed();
    ProductShape(t.p);
    ProductShape(q);
    IndexResolved(t.p.Product(), items);
    IndexShape(t.p.Product(), items);
    var r := Index(t.p.Product(), items).value;
    forall idx | InRange(q.Shape(), idx) ensures q.Product().At(idx) == r.At(idx) {
      IndexedAt(t, items, idx);
    }
    Extensional(q.Product(), r);
  }
}
