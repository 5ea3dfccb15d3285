/** LlamaModel's expert tensors: buffered per block as they arrive, stacked when a block is complete. */
module ExpertMerging {
  import opened Bits

  /** An expert tensor's name: its block, its expert, and which of the three weights it is. */
  datatype Name = Name(bid: nat, xid: nat, wid: nat)

  /** A stacked tensor: its block and weight, and its slices in order. */
  datatype Stack<T> = Stack(bid: nat, wid: nat, slices: seq<T>)

  datatype Error = BadBlock | MissingName | NothingToStack | Unprocessed

  datatype Result<+T> = Ok(value: T) | Err(error: Error)

  type Buffers<T> = seq<map<Name, T>>

  // ----- what one arrival does

  /** The names of a complete block. */
  function Expected(bid: nat, n: nat): set<Name> {
    set x, w | 0 <= x < n && 0 <= w < 3 :: Name(bid, x, w)
  }

  function Slices<T>(m: map<Name, T>, bid: nat, wid: nat, n: nat): (r: seq<T>)
    requires forall x :: 0 <= x < n ==> Name(bid, x, wid) in m
    ensures |r| == n && forall x :: 0 <= x < n ==> r[x] == m[Name(bid, x, wid)]
  {
    if n == 0 then [] else Slices(m, bid, wid, n - 1) + [m[Name(bid, n - 1, wid)]]
  }

  function Stacks<T>(m: map<Name, T>, bid: nat, n: nat): seq<Stack<T>>
    requires Expected(bid, n) <= m.Keys
  {
    HasAll(m, bid, n);
    [Stack(bid, 0, Slices(m, bid, 0, n)), Stack(bid, 1, Slices(m, bid, 1, n)), Stack(bid, 2, Slices(m, bid, 2, n))]
  }

  lemma HasAll<T>(m: map<Name, T>, bid: nat, n: nat)
    requires Expected(bid, n) <= m.Keys
    ensures forall x, w: nat :: 0 <= x < n && w < 3 ==> Name(bid, x, w) in m
  {
    forall x, w: nat | 0 <= x < n && w < 3 ensures Name(bid, x, w) in m {
      assert Name(bid, x, w) in Expected(bid, n);
    }
  }

  datatype Step<T> = Step(buffers: Buffers<T>, emitted: seq<Stack<T>>)

  /** The tensor is stored under its name; a block with 3 n names is stacked and its names deleted. */
  function Arrive<T>(buffers: Buffers<T>, n: nat, k: Name, data: T): Result<Step<T>> {
    if k.bid >= |buffers| then Err(BadBlock)
    else
      var m := buffers[k.bid][k := data];
      if |m| < n * 3 then Ok(Step(buffers[k.bid := m], []))
      else if n == 0 then Err(NothingToStack)
      else if !(Expected(k.bid, n) <= m.Keys) then Err(MissingName)
      else Ok(Step(buffers[k.bid := m - Expected(k.bid, n)], Stacks(m, k.bid, n)))
  }

  function Empty<T>(blocks: nat): Buffers<T> {
    seq(blocks, _ => map[])
  }

  /** A run over the names in the order they arrive, each with the data that belongs to it. */
  function Run<T>(blocks: nat, n: nat, data: Name -> T, names: seq<Name>): Result<Step<T>> {
    if names == [] then Ok(Step(Empty(blocks), []))
    else
      match Run(blocks, n, data, names[..|names| - 1])
      case Err(e) => Err(e)
      case Ok(s) =>
        var k := names[|names| - 1];
        match Arrive(s.buffers, n, k, data(k))
        case Err(e) => Err(e)
        case Ok(t) => Ok(Step(t.buffers, s.emitted + t.emitted))
  }

  /** prepare_tensors: anything left over is an error. */
  function Leftover<T>(buffers: Buffers<T>): bool {
    exists b :: 0 <= b < |buffers| && buffers[b] != map[]
  }

  // ----- counting names

  lemma {:induction false} ExpectedSize(bid: nat, n: nat)
    ensures |Expected(bid, n)| == 3 * n
  {
    hide *;
    if n == 0 {
      NoExperts(bid);
    } else {
      var a, b, c := Name(bid, n - 1, 0), Name(bid, n - 1, 1), Name(bid, n - 1, 2);
      ExpectedSize(bid, n - 1);
      ExpectedNext(bid, n - 1);
      NotYet(bid, n - 1, 0);
      NotYet(bid, n - 1, 1);
      NotYet(bid, n - 1, 2);
      AddThree(Expected(bid, n - 1), a, b, c);
      AddThree(Expected(bid, n - 1), a, b, c);
    }
  }

  lemma NoExperts(bid: nat)
    ensures Expected(bid, 0) == {}
  {
  }

  lemma AddThree<T>(s: set<T>, a: T, b: T, c: T)
    requires a !in s && b !in s && c !in s && a != b && a != c && b != c
    ensures |s + {a, b, c}| == |s| + 3
  {
    assert s + {a, b, c} == ((s + {a}) + {b}) + {c};
  }

  lemma NotYet(bid: nat, n: nat, wid: nat)
    ensures Name(bid, n, wid) !in Expected(bid, n)
  {
  }

  lemma ExpectedNext(bid: nat, n: nat)
    ensures Expected(bid, n + 1) == Expected(bid, n) + {Name(bid, n, 0), Name(bid, n, 1), Name(bid, n, 2)}
  {
  }

  lemma FullSubset<T>(s: set<T>, t: set<T>)
    requires s <= t && |s| >= |t|
    ensures s == t
  {
    assert |t - s| == |t| - |s|;
    assert t - s == {};
  }

  lemma SmallerSubset<T>(s: set<T>, t: set<T>)
    requires s <= t && s != t
    ensures |s| < |t|
  {
    if |s| >= |t| { FullSubset(s, t); }
  }

  // ----- runs in which every name is an expert's and arrives at most once

  predicate Distinct(names: seq<Name>) {
    forall i, j :: 0 <= i < j < |names| ==> names[i] != names[j]
  }

  predicate Known(names: seq<Name>, blocks: nat, n: nat) {
    forall i :: 0 <= i < |names| ==> names[i].bid < blocks && names[i] in Expected(names[i].bid, n)
  }

  /** What has arrived for a block. */
  function Arrived(names: seq<Name>, bid: nat): set<Name> {
    set k | k in names && k.bid == bid
  }

  function Held<T>(data: Name -> T, ks: set<Name>): map<Name, T> {
    map k | k in ks :: data(k)
  }

  predicate Complete(names: seq<Name>, bid: nat, n: nat) {
    Arrived(names, bid) == Expected(bid, n)
  }

  /** A block's buffer: everything that arrived, or nothing once the block is complete. */
  function BufferOf<T>(data: Name -> T, names: seq<Name>, bid: nat, n: nat): map<Name, T> {
    if Complete(names, bid, n) then map[] else Held(data, Arrived(names, bid))
  }

  /** The three stacks of a block, slices in the order of the experts. */
  function StacksOf<T>(data: Name -> T, bid: nat, n: nat): seq<Stack<T>> {
    [Stack(bid, 0, seq(n, x requires 0 <= x < n => data(Name(bid, x, 0)))),
     Stack(bid, 1, seq(n, x requires 0 <= x < n => data(Name(bid, x, 1)))),
     Stack(bid, 2, seq(n, x requires 0 <= x < n => data(Name(bid, x, 2))))]
  }

  lemma ArrivedNext(names: seq<Name>, k: Name, bid: nat)
    ensures Arrived(names + [k], bid) == Arrived(names, bid) + (if k.bid == bid then {k} else {})
  {
  }

  lemma ArrivedKnown(names: seq<Name>, blocks: nat, bid: nat, n: nat)
    requires Known(names, blocks, n)
    ensures Arrived(names, bid) <= Expected(bid, n)
  {
    forall k | k in Arrived(names, bid) ensures k in Expected(bid, n) {
      var i :| 0 <= i < |names| && names[i] == k;
    }
  }

  lemma InitParts(names: seq<Name>, k: Name, blocks: nat, n: nat)
    requires Distinct(names + [k]) && Known(names + [k], blocks, n)
    ensures Distinct(names) && Known(names, blocks, n) && k !in names && k.bid < blocks && k in Expected(k.bid, n)
  {
    var all := names + [k];
    assert all[|names|] == k;
    forall i | 0 <= i < |names| ensures all[i] == names[i] { }
  }

  lemma HeldStacks<T>(data: Name -> T, bid: nat, n: nat)
    ensures Expected(bid, n) <= Held(data, Expected(bid, n)).Keys
    ensures Stacks(Held(data, Expected(bid, n)), bid, n) == StacksOf(data, bid, n)
  {
    var m := Held(data, Expected(bid, n));
    HasAll(m, bid, n);
    hide Expected;
    assert Slices(m, bid, 0, n) == seq(n, x requires 0 <= x < n => data(Name(bid, x, 0)));
    assert Slices(m, bid, 1, n) == seq(n, x requires 0 <= x < n => data(Name(bid, x, 1)));
    assert Slices(m, bid, 2, n) == seq(n, x requires 0 <= x < n => data(Name(bid, x, 2)));
  }

  /** Adding a name to the buffer of an incomplete block. */
  lemma HeldNext<T>(data: Name -> T, ks: set<Name>, k: Name)
    requires k !in ks
    ensures Held(data, ks)[k := data(k)] == Held(data, ks + {k})
    ensures |Held(data, ks + {k})| == |ks + {k}| == |ks| + 1
  {
    HeldSize(data, ks + {k});
  }

  lemma HeldSize<T>(data: Name -> T, ks: set<Name>)
    ensures Held(data, ks).Keys == ks && |Held(data, ks)| == |ks|
  {
    var m := Held(data, ks);
    assert m.Keys == ks;
    assert |m| == |m.Keys|;
  }

  lemma HeldAll<T>(data: Name -> T, ks: set<Name>)
    ensures Held(data, ks) - ks == map[]
  {
  }

  lemma ArriveStep<T>(buffers: Buffers<T>, n: nat, k: Name, data: T, m: map<Name, T>)
    requires n > 0 && k.bid < |buffers| && m == buffers[k.bid][k := data]
    ensures |m| < n * 3 ==> Arrive(buffers, n, k, data) == Ok(Step(buffers[k.bid := m], []))
    ensures |m| >= n * 3 && Expected(k.bid, n) <= m.Keys ==>
            Arrive(buffers, n, k, data) ==
            Ok(Step(buffers[k.bid := m - Expected(k.bid, n)], Stacks(m, k.bid, n)))
  {
    hide Expected, Stacks;
  }

  /** The arrival of a new name: the block is stacked exactly when this was its last. */
  lemma ArriveKnown<T>(buffers: Buffers<T>, n: nat, data: Name -> T, names: seq<Name>, k: Name)
    requires n > 0 && k.bid < |buffers| && k !in names && k in Expected(k.bid, n)
    requires Arrived(names, k.bid) <= Expected(k.bid, n) && buffers[k.bid] == BufferOf(data, names, k.bid, n)
    ensures Arrive(buffers, n, k, data(k)) ==
            Ok(Step(buffers[k.bid := BufferOf(data, names + [k], k.bid, n)],
                    if Complete(names + [k], k.bid, n) then StacksOf(data, k.bid, n) else []))
  {
    var was, all := Arrived(names, k.bid), Expected(k.bid, n);
    assert k !in was;
    ArrivedNext(names, k, k.bid);
    var now := was + {k};
    HeldNext(data, was, k);
    ExpectedSize(k.bid, n);
    HeldStacks(data, k.bid, n);
    HeldAll(data, all);
    ArriveStep(buffers, n, k, data(k), Held(data, now));
    hide Held, Arrived, Arrive, Expected, Stacks, StacksOf;
    if now == all {
      assert |Held(data, now)| == 3 * n;
    } else {
      SmallerSubset(now, all);
    }
  }

  /** What was emitted for one block. */
  function EmittedFor<T>(emitted: seq<Stack<T>>, bid: nat): seq<Stack<T>> {
    if emitted == [] then []
    else
      var last := emitted[|emitted| - 1];
      EmittedFor(emitted[..|emitted| - 1], bid) + if last.bid == bid then [last] else []
  }

  lemma {:induction false} EmittedAppend<T>(a: seq<Stack<T>>, b: seq<Stack<T>>, bid: nat)
    ensures EmittedFor(a + b, bid) == EmittedFor(a, bid) + EmittedFor(b, bid)
  {
    if b == [] {
      assert a + b == a;
    } else {
      var n := |b|;
      EmittedAppend(a, b[..n - 1], bid);
      assert (a + b)[..|a + b| - 1] == a + b[..n - 1];
    }
  }

  lemma EmittedStacks<T>(data: Name -> T, bid: nat, n: nat, b: nat)
    ensures EmittedFor(StacksOf(data, bid, n), b) == if b == bid then StacksOf(data, bid, n) else []
  {
    var s := StacksOf(data, bid, n);
    EmittedThree(s[0], s[1], s[2], b);
    assert s == [s[0], s[1], s[2]];
    hide EmittedFor;
  }

  lemma EmittedThree<T>(x: Stack<T>, y: Stack<T>, z: Stack<T>, b: nat)
    requires x.bid == y.bid == z.bid
    ensures EmittedFor([x, y, z], b) == if b == x.bid then [x, y, z] else []
  {
    assert [x, y, z][..2] == [x, y] && [x, y][..1] == [x] && [x][..0] == [];
    assert EmittedFor([x], b) == if b == x.bid then [x] else [];
    assert EmittedFor([x, y], b) == if b == x.bid then [x, y] else [];
  }

  /** Where a run stands. */
  ghost predicate Stands<T>(s: Step<T>, blocks: nat, n: nat, data: Name -> T, names: seq<Name>) {
    && |s.buffers| == blocks
    && forall b :: 0 <= b < blocks ==>
         && s.buffers[b] == BufferOf(data, names, b, n)
         && EmittedFor(s.emitted, b) == if Complete(names, b, n) then StacksOf(data, b, n) else []
  }

  lemma StandsAt<T>(s: Step<T>, blocks: nat, n: nat, data: Name -> T, names: seq<Name>, b: nat)
    requires Stands(s, blocks, n, data, names) && b < blocks
    ensures |s.buffers| == blocks && s.buffers[b] == BufferOf(data, names, b, n)
    ensures EmittedFor(s.emitted, b) == if Complete(names, b, n) then StacksOf(data, b, n) else []
  {
    hide BufferOf, Complete, StacksOf, EmittedFor;
  }

  lemma NothingArrived<T>(blocks: nat, n: nat, data: Name -> T)
    requires n > 0
    ensures Stands(Step(Empty(blocks), []), blocks, n, data, [])
  {
    forall b: nat ensures Arrived([], b) == {} && !Complete([], b, n) && Held(data, Arrived([], b)) == map[] {
      ExpectedSize(b, n);
    }
    hide Arrived, Complete, Held;
  }

  lemma OtherBlock(names: seq<Name>, k: Name, b: nat, n: nat)
    requires b != k.bid
    ensures Arrived(names + [k], b) == Arrived(names, b) && (Complete(names + [k], b, n) <==> Complete(names, b, n))
  {
    ArrivedNext(names, k, b);
  }

  lemma StandsNext<T>(s: Step<T>, t: Step<T>, blocks: nat, n: nat, data: Name -> T, names: seq<Name>, k: Name)
    requires Stands(s, blocks, n, data, names) && k.bid < blocks && |s.buffers| == blocks
    requires !Complete(names, k.bid, n)
    requires t == Step(s.buffers[k.bid := BufferOf(data, names + [k], k.bid, n)],
                       if Complete(names + [k], k.bid, n) then StacksOf(data, k.bid, n) else [])
    ensures Stands(Step(t.buffers, s.emitted + t.emitted), blocks, n, data, names + [k])
  {
    var r := Step(t.buffers, s.emitted + t.emitted);
    forall b | 0 <= b < blocks
      ensures r.buffers[b] == BufferOf(data, names + [k], b, n)
      ensures EmittedFor(r.emitted, b) == if Complete(names + [k], b, n) then StacksOf(data, b, n) else []
    {
      StandsBlock(s, t, blocks, n, data, names, k, b);
    }
    hide BufferOf, Complete, StacksOf, EmittedFor;
  }

  lemma StandsBlock<T>(s: Step<T>, t: Step<T>, blocks: nat, n: nat, data: Name -> T, names: seq<Name>, k: Name, b: nat)
    requires Stands(s, blocks, n, data, names) && k.bid < blocks && b < blocks && |s.buffers| == blocks
    requires !Complete(names, k.bid, n)
    requires t == Step(s.buffers[k.bid := BufferOf(data, names + [k], k.bid, n)],
                       if Complete(names + [k], k.bid, n) then StacksOf(data, k.bid, n) else [])
    ensures t.buffers[b] == BufferOf(data, names + [k], b, n)
    ensures EmittedFor(s.emitted + t.emitted, b) == if Complete(names + [k], b, n) then StacksOf(data, b, n) else []
  {
    StandsAt(s, blocks, n, data, names, b);
    EmittedAppend(s.emitted, t.emitted, b);
    EmittedStacks(data, k.bid, n, b);
    if b != k.bid {
      OtherBlock(names, k, b, n);
      assert BufferOf(data, names + [k], b, n) == BufferOf(data, names, b, n);
    }
    var none: seq<Stack<T>> := [];
    assert EmittedFor(none, b) == [];
    hide BufferOf, Complete, StacksOf, EmittedFor;
  }

  lemma NotComplete(names: seq<Name>, k: Name, n: nat)
    requires k !in names && k in Expected(k.bid, n)
    ensures !Complete(names, k.bid, n)
  {
    assert k !in Arrived(names, k.bid);
    hide Expected;
  }

  lemma RunUnfold<T>(blocks: nat, n: nat, data: Name -> T, names: seq<Name>, k: Name)
    requires Run(blocks, n, data, names).Ok?
    ensures var s := Run(blocks, n, data, names).value;
            Run(blocks, n, data, names + [k]) ==
            match Arrive(s.buffers, n, k, data(k))
            case Err(e) => Err(e)
            case Ok(t) => Ok(Step(t.buffers, s.emitted + t.emitted))
  {
    hide Arrive;
    assert (names + [k])[..|names|] == names;
  }

  /**
   * Whatever order the tensors arrive in, if no name comes twice: the run goes through, every complete block has
   * emitted its three stacks exactly once, slices in the order of the experts, and has an empty buffer; an incomplete
   * block has emitted nothing and holds everything that arrived.
   */
  lemma {:induction false} RunKnown<T>(blocks: nat, n: nat, data: Name -> T, names: seq<Name>)
    requires n > 0 && Distinct(names) && Known(names, blocks, n)
    ensures Run(blocks, n, data, names).Ok? && Stands(Run(blocks, n, data, names).value, blocks, n, data, names)
    decreases |names|
  {
    hide *;
    if names == [] {
      NothingArrived(blocks, n, data);
      RunEmpty(blocks, n, data);
    } else {
      var init, k := names[..|names| - 1], names[|names| - 1];
      assert names == init + [k];
      InitParts(init, k, blocks, n);
      RunKnown(blocks, n, data, init);
      var s := Run(blocks, n, data, init).value;
      StandsAt(s, blocks, n, data, init, k.bid);
      ArrivedKnown(init, blocks, k.bid, n);
      NotComplete(init, k, n);
      RunUnfold(blocks, n, data, init, k);
      ArriveKnown(s.buffers, n, data, init, k);
      StandsNext(s, Arrive(s.buffers, n, k, data(k)).value, blocks, n, data, init, k);
    }
  }

  lemma RunEmpty<T>(blocks: nat, n: nat, data: Name -> T)
    ensures Run(blocks, n, data, []) == Ok(Step(Empty(blocks), []))
  {
  }

  /** Each arrival emits the stacks of its block if it is the block's last, and nothing otherwise. */
  lemma EmitsAtLast<T>(blocks: nat, n: nat, data: Name -> T, names: seq<Name>, k: Name)
    requires n > 0 && Distinct(names + [k]) && Known(names + [k], blocks, n)
    ensures Run(blocks, n, data, names).Ok? && Run(blocks, n, data, names + [k]).Ok?
    ensures Run(blocks, n, data, names + [k]).value.emitted ==
            Run(blocks, n, data, names).value.emitted +
            (if Arrived(names, k.bid) + {k} == Expected(k.bid, n) then StacksOf(data, k.bid, n) else [])
  {
    InitParts(names, k, blocks, n);
    ArrivedNext(names, k, k.bid);
    assert Complete(names + [k], k.bid, n) <==> Arrived(names, k.bid) + {k} == Expected(k.bid, n);
    hide *;
    RunKnown(blocks, n, data, names);
    var s := Run(blocks, n, data, names).value;
    StandsAt(s, blocks, n, data, names, k.bid);
    ArrivedKnown(names, blocks, k.bid, n);
    RunUnfold(blocks, n, data, names, k);
    ArriveKnown(s.buffers, n, data, names, k);
  }

  /** Two orders of the same names leave the same buffers and emit the same stacks for every block. */
  lemma OrderIndependent<T>(blocks: nat, n: nat, data: Name -> T, names: seq<Name>, other: seq<Name>)
    requires n > 0 && Distinct(names) && Known(names, blocks, n) && Distinct(other) && Known(other, blocks, n)
    requires forall k :: k in names <==> k in other
    ensures Run(blocks, n, data, names).Ok? && Run(blocks, n, data, other).Ok?
    ensures var (s, t) := (Run(blocks, n, data, names).value, Run(blocks, n, data, other).value);
            s.buffers == t.buffers && forall b :: 0 <= b < blocks ==>
                EmittedFor(s.emitted, b) == EmittedFor(t.emitted, b)
  {
    forall b: nat ensures Arrived(names, b) == Arrived(other, b) { }
    hide Run, Arrived, Distinct, Known, Expected, Held, StacksOf, EmittedFor;
    RunKnown(blocks, n, data, names);
    RunKnown(blocks, n, data, other);
  }

  /** prepare_tensors raises exactly when some block has received some of its tensors but not all. */
  lemma LeftoverExactly<T>(blocks: nat, n: nat, data: Name -> T, names: seq<Name>)
    requires n > 0 && Distinct(names) && Known(names, blocks, n)
    ensures Run(blocks, n, data, names).Ok?
    ensures Leftover(Run(blocks, n, data, names).value.buffers) <==>
            exists b :: 0 <= b < blocks && Arrived(names, b) != {} && Arrived(names, b) != Expected(b, n)
  {
    RunKnown(blocks, n, data, names);
    var s := Run(blocks, n, data, names).value;
    forall b: nat | b < blocks
      ensures s.buffers[b] != map[] <==> Arrived(names, b) != {} && Arrived(names, b) != Expected(b, n)
    {
      StandsAt(s, blocks, n, data, names, b);
      HeldEmpty(data, Arrived(names, b));
      hide Run, Arrived, Expected, Held, StacksOf, EmittedFor;
    }
    hide Run, Arrived, Expected, BufferOf, Complete, StacksOf, EmittedFor;
  }

  lemma HeldEmpty<T>(data: Name -> T, ks: set<Name>)
    ensures Held(data, ks) == map[] <==> ks == {}
  {
    HeldSize(data, ks);
  }

  // ----- the buffer

  lemma MissingOne<T>(m: map<Name, T>, bid: nat, n: nat, w: nat)
    requires w < 3 && !(forall x: nat :: x < n ==> Name(bid, x, w) in m)
    ensures !(Expected(bid, n) <= m.Keys)
  {
    var x: nat :| x < n && Name(bid, x, w) !in m;
    assert Name(bid, x, w) in Expected(bid, n);
  }

  lemma MissingLater<T>(m: map<Name, T>, left: map<Name, T>, bid: nat, n: nat, w: nat)
    requires w < 3 && !(forall x: nat :: x < n ==> Name(bid, x, w) in left)
    requires forall k: Name :: k in m && k.wid >= w ==> k in left
    ensures !(Expected(bid, n) <= m.Keys)
  {
    var x: nat :| x < n && Name(bid, x, w) !in left;
    assert Name(bid, x, w) in Expected(bid, n);
  }

  lemma AllTaken<T>(m: map<Name, T>, m0: map<Name, T>, m1: map<Name, T>, m2: map<Name, T>, bid: nat, n: nat)
    requires forall x: nat :: x < n ==> Name(bid, x, 0) in m
    requires forall x: nat :: x < n ==> Name(bid, x, 1) in m0
    requires forall x: nat :: x < n ==> Name(bid, x, 2) in m1
    requires forall k :: k in m0 <==> k in m && !(k.bid == bid && k.wid == 0 && k.xid < n)
    requires forall k :: k in m1 <==> k in m0 && !(k.bid == bid && k.wid == 1 && k.xid < n)
    requires forall k :: k in m2 <==> k in m1 && !(k.bid == bid && k.wid == 2 && k.xid < n)
    requires (forall k :: k in m0 ==> m0[k] == m[k]) && (forall k :: k in m1 ==> m1[k] == m0[k])
    requires forall k :: k in m2 ==> m2[k] == m1[k]
    ensures Expected(bid, n) <= m.Keys && m2 == m - Expected(bid, n)
    ensures Stacks(m, bid, n) ==
            [Stack(bid, 0, Slices(m, bid, 0, n)), Stack(bid, 1, Slices(m0, bid, 1, n)),
                Stack(bid, 2, Slices(m1, bid, 2, n))]
  {
    HasAllOf(m, bid, n);
    WithoutTaken(m, m0, m1, m2, bid, n);
    hide Expected;
    SameSlices(m, m0, bid, 1, n);
    SameSlices(m, m1, bid, 2, n);
  }

  lemma WithoutTaken<T>(m: map<Name, T>, m0: map<Name, T>, m1: map<Name, T>, m2: map<Name, T>, bid: nat, n: nat)
    requires forall k :: k in m0 <==> k in m && !(k.bid == bid && k.wid == 0 && k.xid < n)
    requires forall k :: k in m1 <==> k in m0 && !(k.bid == bid && k.wid == 1 && k.xid < n)
    requires forall k :: k in m2 <==> k in m1 && !(k.bid == bid && k.wid == 2 && k.xid < n)
    requires (forall k :: k in m0 ==> m0[k] == m[k]) && (forall k :: k in m1 ==> m1[k] == m0[k])
    requires forall k :: k in m2 ==> m2[k] == m1[k]
    ensures m2 == m - Expected(bid, n)
  {
    forall k | k in m2 ensures k in m && k !in Expected(bid, n) && m2[k] == m[k] { }
  }

  lemma HasAllOf<T>(m: map<Name, T>, bid: nat, n: nat)
    requires forall x, w: nat :: 0 <= x < n && w < 3 ==> Name(bid, x, w) in m
    ensures Expected(bid, n) <= m.Keys
  {
  }

  lemma SameSlices<T>(m: map<Name, T>, l: map<Name, T>, bid: nat, w: nat, n: nat)
    requires forall x :: 0 <= x < n ==> Name(bid, x, w) in m
    requires forall x :: 0 <= x < n ==> Name(bid, x, w) in l && l[Name(bid, x, w)] == m[Name(bid, x, w)]
    ensures Slices(l, bid, w, n) == Slices(m, bid, w, n)
  {
  }

  class ExpertBuffer<T> {
    const blocks: nat
    const nExperts: nat
    var experts: Option<Buffers<T>>

    constructor (blocks: nat, nExperts: nat)
      ensures this.blocks == blocks && this.nExperts == nExperts && experts == None
    {
      this.blocks, this.nExperts, experts := blocks, nExperts, None;
    }

    /** The buffers, created on first use. */
    function Current(): Buffers<T>
      reads this
    {
      if experts.Some? then experts.value else Empty(blocks)
    }

    /** Takes one weight of every expert out of the buffer of a block, in order. */
    method TakeWeight(m0: map<Name, T>, bid: nat, w: nat) returns (datas: Option<seq<T>>, m: map<Name, T>)
      requires w < 3
      ensures datas.Some? <==> forall x: nat :: x < nExperts ==> Name(bid, x, w) in m0
      ensures datas.Some? ==> datas.value == Slices(m0, bid, w, nExperts)
      ensures datas.Some? ==> forall k :: k in m <==> k in m0 && !(k.bid == bid && k.wid == w && k.xid < nExperts)
      ensures forall k :: k in m ==> k in m0 && m[k] == m0[k]
    {
      m := m0;
      var taken: seq<T> := [];
      for x := 0 to nExperts
        invariant forall e: nat :: e < x ==> Name(bid, e, w) in m0
        invariant taken == Slices(m0, bid, w, x)
        invariant forall k :: k in m <==> k in m0 && !(k.bid == bid && k.wid == w && k.xid < x)
        invariant forall k :: k in m ==> m[k] == m0[k]
      {
        var name := Name(bid, x, w);
        if name !in m { return None, m; }
        taken := taken + [m[name]];
        m := m - {name};
      }
      datas := Some(taken);
    }

    /** LlamaModel.modify_tensors, for a tensor of an expert. */
    method ModifyTensors(name: Name, data: T) returns (r: Result<seq<Stack<T>>>)
      modifies this
      ensures var a := Arrive(old(Current()), nExperts, name, data);
              && (r.Ok? <==> a.Ok?)
              && (r.Ok? ==> experts == Some(a.value.buffers) && r.value == a.value.emitted)
              && (r.Err? ==> r.error == a.error)
    {
      if experts.None? { experts := Some(Empty(blocks)); }
      var buffers := experts.value;
      if name.bid >= |buffers| { return Err(BadBlock); }
      var m := buffers[name.bid][name := data];
      experts := Some(buffers[name.bid := m]);
      if |m| < nExperts * 3 { return Ok([]); }
      if nExperts == 0 { return Err(NothingToStack); }
      var d0, m0 := TakeWeight(m, name.bid, 0);
      if d0.None? {
        MissingOne(m, name.bid, nExperts, 0);
        return Err(MissingName);
      }
      var d1, m1 := TakeWeight(m0, name.bid, 1);
      if d1.None? {
        MissingLater(m, m0, name.bid, nExperts, 1);
        return Err(MissingName);
      }
      var d2, m2 := TakeWeight(m1, name.bid, 2);
      if d2.None? {
        MissingLater(m, m1, name.bid, nExperts, 2);
        return Err(MissingName);
      }
      AllTaken(m, m0, m1, m2, name.bid, nExperts);
      experts := Some(buffers[name.bid := m2]);
      r := Ok([Stack(name.bid, 0, d0.value), Stack(name.bid, 1, d1.value), Stack(name.bid, 2, d2.value)]);
    }

    /** The check at the end of prepare_tensors. */
    method PrepareTensors() returns (r: Result<()>)
      ensures r == if experts.Some? && Leftover(experts.value) then Err(Unprocessed) else Ok(())
    {
      if experts.None? { return Ok(()); }
      var b := 0;
      while b < |experts.value|
        invariant b <= |experts.value| && forall c :: 0 <= c < b ==> experts.value[c] == map[]
      {
        if experts.value[b] != map[] { return Err(Unprocessed); }
        b := b + 1;
      }
      r := Ok(());
    }
  }
}
