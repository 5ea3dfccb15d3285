/** QwenModel.bpe: merging adjacent parts of a token, lowest rank first. */
module BpeMerge {
  import opened Bits

  type Part = seq<byte>

  type Ranks = map<Part, int>

  function Pair(parts: seq<Part>, i: nat): Part
    requires i + 1 < |parts|
  {
    parts[i] + parts[i + 1]
  }

  predicate Ranked(ranks: Ranks, parts: seq<Part>, i: nat) {
    i + 1 < |parts| && Pair(parts, i) in ranks
  }

  function RankAt(ranks: Ranks, parts: seq<Part>, i: nat): int
    requires Ranked(ranks, parts, i)
  {
    ranks[Pair(parts, i)]
  }

  /** `i` is the leftmost of the adjacent pairs of lowest rank. */
  ghost predicate IsBest(ranks: Ranks, parts: seq<Part>, i: nat) {
    && Ranked(ranks, parts, i)
    && (forall j: nat :: Ranked(ranks, parts, j) ==> RankAt(ranks, parts, i) <= RankAt(ranks, parts, j))
    && (forall j: nat :: j < i && Ranked(ranks, parts, j) ==> RankAt(ranks, parts, i) < RankAt(ranks, parts, j))
  }

  ghost predicate NoneRanked(ranks: Ranks, parts: seq<Part>) {
    forall j: nat :: !Ranked(ranks, parts, j)
  }

  /** The search of one round, over the pairs below `n`. */
  function BestBelow(ranks: Ranks, parts: seq<Part>, n: nat): (r: Option<nat>)
    ensures r.None? ==> forall j: nat :: j < n ==> !Ranked(ranks, parts, j)
    ensures r.Some? ==> r.value < n && Ranked(ranks, parts, r.value)
    ensures r.Some? ==> forall j: nat :: j < n && Ranked(ranks, parts, j) ==>
            RankAt(ranks, parts, r.value) <= RankAt(ranks, parts, j)
    ensures r.Some? ==> forall j: nat :: j < r.value && Ranked(ranks, parts, j) ==>
            RankAt(ranks, parts, r.value) < RankAt(ranks, parts, j)
  {
    if n == 0 then None
    else
      var best := BestBelow(ranks, parts, n - 1);
      if Ranked(ranks, parts, n - 1) && (best.None? || RankAt(ranks, parts, n - 1) < RankAt(ranks, parts, best.value))
      then Some(n - 1)
      else best
  }

  function Best(ranks: Ranks, parts: seq<Part>): (r: Option<nat>)
    ensures r.Some? ==> IsBest(ranks, parts, r.value)
    ensures r.None? ==> NoneRanked(ranks, parts)
  {
    BestBelow(ranks, parts, |parts|)
  }

  function Merged(parts: seq<Part>, i: nat): (r: seq<Part>)
    requires i + 1 < |parts|
    ensures |r| == |parts| - 1
  {
    parts[..i] + [Pair(parts, i)] + parts[i + 2..]
  }

  predicate Below(rank: int, bound: Option<int>) {
    bound.Some? ==> rank < bound.value
  }

  /** Merge until no pair has a rank, or the lowest rank reaches the bound. */
  function Run(ranks: Ranks, parts: seq<Part>, bound: Option<int>): seq<Part>
    decreases |parts|
  {
    match Best(ranks, parts)
    case None => parts
    case Some(i) => if Below(RankAt(ranks, parts, i), bound) then Run(ranks, Merged(parts, i), bound) else parts
  }

  function Single(token: seq<byte>): (r: seq<Part>)
    ensures |r| == |token|
  {
    seq(|token|, i requires 0 <= i < |token| => [token[i]])
  }

  function Bpe(ranks: Ranks, token: seq<byte>, bound: Option<int>): seq<Part> {
    Run(ranks, Single(token), bound)
  }

  // ----- what every round keeps

  function Joined(parts: seq<Part>): seq<byte> {
    if parts == [] then [] else parts[0] + Joined(parts[1..])
  }

  /** A single byte, or something merged below the bound. */
  predicate GoodPart(ranks: Ranks, p: Part, bound: Option<int>) {
    |p| == 1 || (|p| > 1 && p in ranks && Below(ranks[p], bound))
  }

  ghost predicate GoodParts(ranks: Ranks, parts: seq<Part>, bound: Option<int>) {
    forall i :: 0 <= i < |parts| ==> GoodPart(ranks, parts[i], bound)
  }

  lemma {:induction false} JoinedAppend(a: seq<Part>, b: seq<Part>)
    ensures Joined(a + b) == Joined(a) + Joined(b)
  {
    if a == [] {
      assert a + b == b;
    } else {
      JoinedAppend(a[1..], b);
      assert (a + b)[0] == a[0] && (a + b)[1..] == a[1..] + b;
    }
  }

  lemma MergedJoined(parts: seq<Part>, i: nat)
    requires i + 1 < |parts|
    ensures Joined(Merged(parts, i)) == Joined(parts)
  {
    hide *;
    var a, x, y, b := parts[..i], parts[i], parts[i + 1], parts[i + 2..];
    Around(parts, i);
    MergedIs(parts, i);
    JoinedTwo(x, y, b);
    JoinedAppend(a, [x, y] + b);
    JoinedAppend(a, [x + y] + b);
  }

  lemma Around<T>(parts: seq<T>, i: nat)
    requires i + 1 < |parts|
    ensures parts == parts[..i] + ([parts[i], parts[i + 1]] + parts[i + 2..])
  {
  }

  lemma MergedIs(parts: seq<Part>, i: nat)
    requires i + 1 < |parts|
    ensures Merged(parts, i) == parts[..i] + ([parts[i] + parts[i + 1]] + parts[i + 2..])
  {
    Regroup(parts[..i], parts[i] + parts[i + 1], parts[i + 2..]);
  }

  lemma Regroup<T>(a: seq<T>, x: T, b: seq<T>)
    ensures a + [x] + b == a + ([x] + b)
  {
  }

  lemma JoinedTwo(x: Part, y: Part, b: seq<Part>)
    ensures Joined([x, y] + b) == Joined([x + y] + b)
  {
    assert ([x, y] + b)[1..] == [y] + b && ([y] + b)[1..] == b && ([x + y] + b)[1..] == b;
    assert x + (y + Joined(b)) == (x + y) + Joined(b);
  }

  lemma MergedGood(ranks: Ranks, parts: seq<Part>, i: nat, bound: Option<int>)
    requires GoodParts(ranks, parts, bound) && Ranked(ranks, parts, i) && Below(RankAt(ranks, parts, i), bound)
    ensures GoodParts(ranks, Merged(parts, i), bound)
  {
    var m := Merged(parts, i);
    forall k | 0 <= k < |m| ensures GoodPart(ranks, m[k], bound) {
      if k == i {
        assert m[k] == Pair(parts, i) && GoodPart(ranks, parts[i], bound) && GoodPart(ranks, parts[i + 1], bound);
      } else {
        assert m[k] == if k < i then parts[k] else parts[k + 1];
      }
    }
  }

  /** No pair that is left could still be merged below the bound. */
  ghost predicate Finished(ranks: Ranks, parts: seq<Part>, bound: Option<int>) {
    forall j: nat :: Ranked(ranks, parts, j) ==> !Below(RankAt(ranks, parts, j), bound)
  }

  lemma {:induction false} RunKeeps(ranks: Ranks, parts: seq<Part>, bound: Option<int>)
    requires GoodParts(ranks, parts, bound)
    ensures var r := Run(ranks, parts, bound);
            Joined(r) == Joined(parts) && GoodParts(ranks, r, bound) && Finished(ranks, r, bound)
    decreases |parts|
  {
    var best := Best(ranks, parts);
    hide Joined, GoodParts, Merged, Best;
    if best.Some? && Below(RankAt(ranks, parts, best.value), bound) {
      MergedJoined(parts, best.value);
      MergedGood(ranks, parts, best.value, bound);
      RunKeeps(ranks, Merged(parts, best.value), bound);
    }
  }

  lemma {:induction false} SingleJoined(token: seq<byte>)
    ensures Joined(Single(token)) == token
  {
    if token != [] {
      assert Single(token)[1..] == Single(token[1..]);
      SingleJoined(token[1..]);
    }
  }

  /**
   * The parts concatenate to the token, each is a single byte or was merged at a rank below the bound, and no adjacent
   * pair has a rank below it.
   */
  lemma BpeResult(ranks: Ranks, token: seq<byte>, bound: Option<int>)
    ensures var r := Bpe(ranks, token, bound);
            Joined(r) == token && GoodParts(ranks, r, bound) && Finished(ranks, r, bound)
  {
    SingleJoined(token);
    assert GoodParts(ranks, Single(token), bound);
    hide Run, Joined, GoodParts, Finished, Single;
    RunKeeps(ranks, Single(token), bound);
  }

  /** Bounded by its own rank, a token of two or more bytes is never put together whole. */
  lemma OwnRank(ranks: Ranks, token: seq<byte>)
    requires token in ranks && |token| >= 2
    ensures |Bpe(ranks, token, Some(ranks[token]))| >= 2
  {
    hide Bpe, Joined, GoodParts;
    var bound := Some(ranks[token]);
    BpeResult(ranks, token, bound);
    if |Bpe(ranks, token, bound)| < 2 { OnePart(ranks, Bpe(ranks, token, bound), token, bound); }
  }

  lemma OnePart(ranks: Ranks, parts: seq<Part>, token: seq<byte>, bound: Option<int>)
    requires |parts| < 2 <= |token| && Joined(parts) == token && GoodParts(ranks, parts, bound)
    ensures token in ranks && Below(ranks[token], bound)
  {
    if |parts| == 1 {
      assert parts[1..] == [] && Joined(parts) == parts[0] + Joined([]) == parts[0];
      assert GoodPart(ranks, parts[0], bound);
    }
  }

  // ----- bounded runs are prefixes

  /** Everything below the first bound is below the second. */
  predicate Tighter(a: Option<int>, b: Option<int>) {
    b.Some? ==> a.Some? && a.value <= b.value
  }

  /** Running with a lower bound first and going on with the higher one is running with the higher one. */
  lemma {:induction false} RunResumes(ranks: Ranks, parts: seq<Part>, a: Option<int>, b: Option<int>)
    requires Tighter(a, b)
    ensures Run(ranks, Run(ranks, parts, a), b) == Run(ranks, parts, b)
    decreases |parts|
  {
    var best := Best(ranks, parts);
    hide Best, Merged;
    if best.Some? && Below(RankAt(ranks, parts, best.value), a) {
      RunResumes(ranks, Merged(parts, best.value), a, b);
    }
  }

  /** So the unbounded result can be had by continuing from any bounded one. */
  lemma BpeResumes(ranks: Ranks, token: seq<byte>, bound: Option<int>)
    ensures Run(ranks, Bpe(ranks, token, bound), None) == Bpe(ranks, token, None)
  {
    hide Run;
    RunResumes(ranks, Single(token), bound, None);
  }

  // ----- the steps taken

  /** The leftmost of the pairs of lowest rank, below the bound, is replaced by what it concatenates to. */
  ghost predicate MergesTo(ranks: Ranks, x: seq<Part>, y: seq<Part>, bound: Option<int>) {
    exists i: nat :: IsBest(ranks, x, i) && Below(RankAt(ranks, x, i), bound) && ReplacesPair(x, y, i)
  }

  predicate ReplacesPair(x: seq<Part>, y: seq<Part>, i: nat) {
    i + 1 < |x| && y == x[..i] + ([x[i] + x[i + 1]] + x[i + 2..])
  }

  /** Each list of parts merges to the next, and the last has no pair left to merge. */
  ghost predicate IsHistory(ranks: Ranks, h: seq<seq<Part>>, bound: Option<int>) {
    && h != []
    && (forall k :: 0 <= k < |h| - 1 ==> MergesTo(ranks, h[k], h[k + 1], bound))
    && Finished(ranks, h[|h| - 1], bound)
  }

  lemma BestUnique(ranks: Ranks, parts: seq<Part>, i: nat, j: nat)
    requires IsBest(ranks, parts, i) && IsBest(ranks, parts, j)
    ensures i == j
  {
    hide RankAt, Ranked;
  }

  /** A merge is the one that the next round of the run makes. */
  lemma MergeIsRound(ranks: Ranks, x: seq<Part>, y: seq<Part>, bound: Option<int>)
    requires MergesTo(ranks, x, y, bound)
    ensures |y| < |x| && Run(ranks, x, bound) == Run(ranks, y, bound)
  {
    var i: nat :| IsBest(ranks, x, i) && Below(RankAt(ranks, x, i), bound) && ReplacesPair(x, y, i);
    MergedIs(x, i);
    assert Ranked(ranks, x, i);
    var best := Best(ranks, x);
    hide Best, Below, RankAt, Ranked, IsBest, Merged;
    BestUnique(ranks, x, i, best.value);
  }

  lemma FinishedRun(ranks: Ranks, parts: seq<Part>, bound: Option<int>)
    requires Finished(ranks, parts, bound)
    ensures Run(ranks, parts, bound) == parts
  {
    hide RankAt, Below;
  }

  /** Any history ends with what the run returns. */
  lemma {:induction false} HistoryIsRun(ranks: Ranks, h: seq<seq<Part>>, bound: Option<int>)
    requires IsHistory(ranks, h, bound)
    ensures h[|h| - 1] == Run(ranks, h[0], bound)
    decreases |h|
  {
    hide MergesTo, Finished, Run;
    if |h| == 1 {
      FinishedRun(ranks, h[0], bound);
    } else {
      assert MergesTo(ranks, h[0], h[0 + 1], bound);
      MergeIsRound(ranks, h[0], h[1], bound);
      var t := h[1..];
      forall k | 0 <= k < |t| - 1 ensures MergesTo(ranks, t[k], t[k + 1], bound) {
        assert MergesTo(ranks, h[k + 1], h[k + 1 + 1], bound);
      }
      HistoryIsRun(ranks, t, bound);
    }
  }

  /** And the run has one. */
  lemma {:induction false} RunHistory(ranks: Ranks, parts: seq<Part>, bound: Option<int>) returns (h: seq<seq<Part>>)
    ensures IsHistory(ranks, h, bound) && h[0] == parts
    decreases |parts|
  {
    var best := Best(ranks, parts);
    if best.Some? && Below(RankAt(ranks, parts, best.value), bound) {
      var next := Merged(parts, best.value);
      MergedIs(parts, best.value);
      assert ReplacesPair(parts, next, best.value);
      assert MergesTo(ranks, parts, next, bound);
      hide *;
      var t := RunHistory(ranks, next, bound);
      h := [parts] + t;
      HistoryFront(ranks, parts, t, bound);
    } else {
      hide Best;
      h := [parts];
      assert Finished(ranks, parts, bound);
    }
  }

  lemma HistoryFront(ranks: Ranks, parts: seq<Part>, t: seq<seq<Part>>, bound: Option<int>)
    requires IsHistory(ranks, t, bound) && MergesTo(ranks, parts, t[0], bound)
    ensures IsHistory(ranks, [parts] + t, bound)
  {
    hide MergesTo, Finished;
    var h := [parts] + t;
    forall k | 0 <= k < |h| - 1 ensures MergesTo(ranks, h[k], h[k + 1], bound) {
      if k > 0 { assert MergesTo(ranks, t[k - 1], t[k - 1 + 1], bound); }
    }
  }

  /** The result is what repeated merging of the leftmost pair of lowest rank leads to from the single bytes. */
  lemma BpeExactly(ranks: Ranks, token: seq<byte>, bound: Option<int>, r: seq<Part>)
    ensures r == Bpe(ranks, token, bound) <==>
            exists h :: h != [] && IsHistory(ranks, h, bound) && h[0] == Single(token) && h[|h| - 1] == r
  {
    hide IsHistory, Run, Single;
    var h := RunHistory(ranks, Single(token), bound);
    HistoryIsRun(ranks, h, bound);
    HistoryNotEmpty(ranks, h, bound);
    if exists g :: g != [] && IsHistory(ranks, g, bound) && g[0] == Single(token) && g[|g| - 1] == r {
      var g :| g != [] && IsHistory(ranks, g, bound) && g[0] == Single(token) && g[|g| - 1] == r;
      HistoryIsRun(ranks, g, bound);
    }
  }

  lemma HistoryNotEmpty(ranks: Ranks, h: seq<seq<Part>>, bound: Option<int>)
    requires IsHistory(ranks, h, bound)
    ensures h != []
  {
  }

  // ----- the loop

  /** One round's search: index and rank of the best pair. */
  method FindPair(ranks: Ranks, parts: seq<Part>) returns (minIdx: Option<nat>, minRank: Option<int>)
    ensures minIdx == Best(ranks, parts)
    ensures minIdx.Some? ==> minRank == Some(RankAt(ranks, parts, minIdx.value))
    ensures minIdx.None? ==> minRank == None
  {
    minIdx, minRank := None, None;
    var i := 0;
    while i + 1 < |parts|
      invariant i <= |parts| && (i > 0 ==> i < |parts|)
      invariant minIdx == BestBelow(ranks, parts, i)
      invariant minRank == if minIdx.Some? then Some(RankAt(ranks, parts, minIdx.value)) else None
    {
      var pair := parts[i] + parts[i + 1];
      if pair in ranks && (minRank.None? || ranks[pair] < minRank.value) {
        minIdx, minRank := Some(i), Some(ranks[pair]);
      }
      i := i + 1;
    }
  }

  method Tokenise(ranks: Ranks, token: seq<byte>, maxRank: Option<int>) returns (parts: seq<Part>)
    ensures parts == Bpe(ranks, token, maxRank)
  {
    parts := Single(token);
    while true
      invariant Run(ranks, parts, maxRank) == Bpe(ranks, token, maxRank)
      decreases |parts|
    {
      var minIdx, minRank := FindPair(ranks, parts);
      if minRank.None? || (maxRank.Some? && minRank.value >= maxRank.value) { break; }
      var i := minIdx.value;
      parts := parts[..i] + [parts[i] + parts[i + 1]] + parts[i + 2..];
    }
  }
}
