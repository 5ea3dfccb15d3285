/**
 * The LZ77 stage of the compressor as a function of its input: bounded hash chains, the longest match
 * in the chain, and lazy matching.
 */
module MatchFinder {
  import opened Bits
  import opened Inflate

  const BUCKETS: nat := 16384

  /** stbiw__zhash, in 32-bit unsigned arithmetic. */
  function Hash(a: byte, b: byte, c: byte): nat {
    var h0 := a + b * 0x100 + c * 0x1_0000;
    var h1 := Xor(h0, h0 * 8 % 0x1_0000_0000);
    var h2 := (h1 + h1 / 32) % 0x1_0000_0000;
    var h3 := Xor(h2, h2 * 16 % 0x1_0000_0000);
    var h4 := (h3 + h3 / 0x2_0000) % 0x1_0000_0000;
    var h5 := Xor(h4, h4 * 0x200_0000 % 0x1_0000_0000);
    (h5 + h5 / 64) % 0x1_0000_0000
  }

  /** The hash chain of the three bytes at `i`. */
  function Bucket(data: seq<byte>, i: nat): (h: nat)
    requires i + 2 < |data|
    ensures h < BUCKETS
  {
    Hash(data[i], data[i + 1], data[i + 2]) % BUCKETS
  }

  // ----- match lengths

  /** Extends a match of `k` bytes as far as it goes, up to 258 bytes or the end of the data. */
  function MatchFrom(data: seq<byte>, p: nat, i: nat, k: nat): (r: nat)
    requires p < i && k <= 258 && i + k <= |data|
    ensures k <= r <= 258 && i + r <= |data|
    decreases 258 - k
  {
    if i + k < |data| && k < 258 && Agree(data, p, i, k) then MatchFrom(data, p, i, k + 1) else k
  }

  function MatchLength(data: seq<byte>, p: nat, i: nat): nat
    requires p < i <= |data|
  {
    MatchFrom(data, p, i, 0)
  }

  predicate Agree(data: seq<byte>, p: nat, i: nat, m: nat)
    requires p < i && i + m < |data|
  {
    data[p + m] == data[i + m]
  }

  /** The bytes agree that far, and no further unless a limit was hit. */
  lemma {:induction false} MatchFromIsMaximal(data: seq<byte>, p: nat, i: nat, k: nat)
    requires p < i && k <= 258 && i + k <= |data|
    ensures var r := MatchFrom(data, p, i, k);
            && (forall m :: k <= m < r ==> Agree(data, p, i, m))
            && (r < 258 && i + r < |data| ==> !Agree(data, p, i, r))
    decreases 258 - k
  {
    if i + k < |data| && k < 258 && Agree(data, p, i, k) {
      MatchFromIsMaximal(data, p, i, k + 1);
    }
  }

  // ----- searching a chain

  datatype Found = Found(best: nat, loc: Option<nat>)

  /** Positions before `i`, oldest first. */
  predicate ValidChain(chain: seq<nat>, i: nat) {
    && (forall j :: 0 <= j < |chain| ==> chain[j] < i)
    && (forall j, k :: 0 <= j < k < |chain| ==> chain[j] < chain[k])
  }

  /** The best match at `i` among the first `n` entries: ties go to the later entry. */
  function Search(data: seq<byte>, chain: seq<nat>, i: nat, n: nat): (f: Found)
    requires n <= |chain| && i <= |data| && ValidChain(chain, i)
    ensures f.loc.Some? ==> f.loc.value < i
  {
    if n == 0 then Found(3, None)
    else
      var f := Search(data, chain, i, n - 1);
      var p := chain[n - 1];
      if p > i - 32768 && MatchLength(data, p, i) >= f.best then Found(MatchLength(data, p, i), Some(p)) else f
  }

  /** Entry `j` starts a usable match: it lies in the window and agrees on three bytes or more. */
  predicate Usable(data: seq<byte>, chain: seq<nat>, i: nat, j: nat)
    requires j < |chain| && i <= |data| && ValidChain(chain, i)
  {
    chain[j] > i - 32768 && MatchLength(data, chain[j], i) >= 3
  }

  /** No usable entry matches more than entry `j`, and none after it matches as much. */
  ghost predicate IsNearestLongest(data: seq<byte>, chain: seq<nat>, i: nat, n: nat, j: nat)
    requires j < n <= |chain| && i <= |data| && ValidChain(chain, i)
  {
    && Usable(data, chain, i, j)
    && (forall k :: 0 <= k < n && Usable(data, chain, i, k) ==>
          MatchLength(data, chain[k], i) <= MatchLength(data, chain[j], i))
    && (forall k :: j < k < n && Usable(data, chain, i, k) ==>
          MatchLength(data, chain[k], i) < MatchLength(data, chain[j], i))
  }

  /** The search result is the longest usable match, the nearest one of that length; or there is none. */
  lemma {:induction false} SearchIsLongest(data: seq<byte>, chain: seq<nat>, i: nat, n: nat)
    requires n <= |chain| && i <= |data| && ValidChain(chain, i)
    ensures var f := Search(data, chain, i, n);
            && f.best >= 3
            && (f.loc.None? ==> f.best == 3 && forall j :: 0 <= j < n ==> !Usable(data, chain, i, j))
            && (f.loc.Some? ==> exists j :: 0 <= j < n && IsNearestLongest(data, chain, i, n, j)
                                            && f == Found(MatchLength(data, chain[j], i), Some(chain[j])))
  {
    hide MatchLength, IsNearestLongest;
    if n > 0 {
      SearchIsLongest(data, chain, i, n - 1);
      var f := Search(data, chain, i, n - 1);
      var p := chain[n - 1];
      if p > i - 32768 && MatchLength(data, p, i) >= f.best {
        if f.loc.Some? {
          var j :| 0 <= j < n - 1 && IsNearestLongest(data, chain, i, n - 1, j)
                   && f == Found(MatchLength(data, chain[j], i), Some(chain[j]));
          NearestReplaced(data, chain, i, n, j);
        } else {
          FirstUsable(data, chain, i, n);
        }
        assert IsNearestLongest(data, chain, i, n, n - 1);
      } else if f.loc.Some? {
        var j :| 0 <= j < n - 1 && IsNearestLongest(data, chain, i, n - 1, j)
                 && f == Found(MatchLength(data, chain[j], i), Some(chain[j]));
        NearestStays(data, chain, i, n, j);
        assert IsNearestLongest(data, chain, i, n, j);
      }
    }
  }

  lemma FirstUsable(data: seq<byte>, chain: seq<nat>, i: nat, n: nat)
    requires 0 < n <= |chain| && i <= |data| && ValidChain(chain, i) && Usable(data, chain, i, n - 1)
    requires forall j :: 0 <= j < n - 1 ==> !Usable(data, chain, i, j)
    ensures IsNearestLongest(data, chain, i, n, n - 1)
  {
    hide MatchLength, ValidChain;
  }

  lemma NearestReplaced(data: seq<byte>, chain: seq<nat>, i: nat, n: nat, j: nat)
    requires 0 < n <= |chain| && i <= |data| && ValidChain(chain, i) && j < n - 1
    requires IsNearestLongest(data, chain, i, n - 1, j) && Usable(data, chain, i, n - 1)
    requires MatchLength(data, chain[n - 1], i) >= MatchLength(data, chain[j], i)
    ensures IsNearestLongest(data, chain, i, n, n - 1)
  {
    hide MatchLength, ValidChain, Usable;
  }

  lemma NearestStays(data: seq<byte>, chain: seq<nat>, i: nat, n: nat, j: nat)
    requires 0 < n <= |chain| && i <= |data| && ValidChain(chain, i) && j < n - 1
    requires IsNearestLongest(data, chain, i, n - 1, j)
    requires !Usable(data, chain, i, n - 1) || MatchLength(data, chain[n - 1], i) < MatchLength(data, chain[j], i)
    ensures IsNearestLongest(data, chain, i, n, j)
  {
    hide MatchLength, ValidChain, Usable;
  }

  /** Some entry in the window matches more than `best` bytes at the next position. */
  predicate BetterAhead(data: seq<byte>, chain: seq<nat>, i: nat, best: nat)
    requires i < |data| && ValidChain(chain, i + 1)
  {
    exists j :: 0 <= j < |chain| && chain[j] > i - 32767 && MatchLength(data, chain[j], i + 1) > best
  }

  // ----- the hash table

  /** A full chain first loses its older half. */
  function Push(chain: seq<nat>, quality: nat, i: nat): seq<nat> {
    (if |chain| == 2 * quality then chain[quality..] else chain) + [i]
  }

  /** What stays is the newest: all of a chain that is not full, and half of one that is. */
  lemma NewestStay(chain: seq<nat>, quality: nat, i: nat)
    requires |chain| <= 2 * quality
    ensures var r := Push(chain, quality, i);
            && |r| == (if |chain| == 2 * quality then quality + 1 else |chain| + 1)
            && forall k :: 0 <= k < |r| ==> r[k] == (chain + [i])[|chain| + 1 - |r| + k]
  {
  }

  /** Chains hold earlier positions of their own bucket, in increasing order, at most `2 * quality` of them. */
  ghost predicate ValidTable(data: seq<byte>, table: seq<seq<nat>>, quality: nat, i: nat) {
    && |table| == BUCKETS
    && forall h {:trigger table[h]} :: 0 <= h < BUCKETS ==>
         && ValidChain(table[h], i)
         && |table[h]| <= 2 * quality
         && forall p :: p in table[h] ==> p + 2 < |data| && Bucket(data, p) == h
  }

  function EmptyTable(): (r: seq<seq<nat>>)
    ensures |r| == BUCKETS && forall h :: 0 <= h < BUCKETS ==> r[h] == []
  {
    seq(BUCKETS, _ => [])
  }

  function Record(data: seq<byte>, table: seq<seq<nat>>, quality: nat, i: nat): (r: seq<seq<nat>>)
    requires |table| == BUCKETS && i + 2 < |data|
    ensures |r| == BUCKETS
  {
    var h := Bucket(data, i);
    table[h := Push(table[h], quality, i)]
  }

  lemma RecordKeepsTable(data: seq<byte>, table: seq<seq<nat>>, quality: nat, i: nat)
    requires quality > 0 && i + 2 < |data| && ValidTable(data, table, quality, i)
    ensures ValidTable(data, Record(data, table, quality, i), quality, i + 1)
  {
    hide Bucket;
    var h := Bucket(data, i);
    var chain := Push(table[h], quality, i);
    assert forall p :: p in chain ==> p == i || p in table[h];
    assert ValidChain(chain, i + 1);
    var next := Record(data, table, quality, i);
    forall k | 0 <= k < BUCKETS
      ensures ValidChain(next[k], i + 1) && |next[k]| <= 2 * quality
      ensures forall p :: p in next[k] ==> p + 2 < |data| && Bucket(data, p) == k
    {
      if k != h { assert next[k] == table[k]; }
    }
  }

  lemma TableAges(data: seq<byte>, table: seq<seq<nat>>, quality: nat, i: nat, j: nat)
    requires i <= j && ValidTable(data, table, quality, i)
    ensures ValidTable(data, table, quality, j)
  {
  }

  // ----- tokens

  /** What the compressor emits at `i`, given the chains with (`next`) and without (`table`) position `i`. */
  function Choose(data: seq<byte>, table: seq<seq<nat>>, next: seq<seq<nat>>, i: nat): Token
    requires i + 3 < |data| && |table| == BUCKETS && |next| == BUCKETS
    requires ValidChain(table[Bucket(data, i)], i) && ValidChain(next[Bucket(data, i + 1)], i + 1)
  {
    var chain := table[Bucket(data, i)];
    var f := Search(data, chain, i, |chain|);
    if f.loc.Some? && !BetterAhead(data, next[Bucket(data, i + 1)], i, f.best)
    then Match(f.best, i - f.loc.value)
    else Literal(data[i])
  }

  function TokenSize(t: Token): nat {
    if t.Match? then t.length else 1
  }

  /**
   * A match is taken exactly if some entry of the chain can start one and no entry of the next chain matches more at
   * the next position; it is then the longest, and the nearest of that length. All else is a literal.
   */
  lemma ChooseIsLazy(data: seq<byte>, table: seq<seq<nat>>, next: seq<seq<nat>>, i: nat)
    requires i + 3 < |data| && |table| == BUCKETS && |next| == BUCKETS
    requires ValidChain(table[Bucket(data, i)], i) && ValidChain(next[Bucket(data, i + 1)], i + 1)
    ensures var (chain, ahead, t) := (table[Bucket(data, i)], next[Bucket(data, i + 1)], Choose(data, table, next, i));
            && (t.Match? ==> exists j :: 0 <= j < |chain| && IsNearestLongest(data, chain, i, |chain|, j)
                               && t == Match(MatchLength(data, chain[j], i), i - chain[j]))
            && (t.Literal? ==> t.b == data[i])
            && (t.Literal? <==> (forall j :: 0 <= j < |chain| ==> !Usable(data, chain, i, j)) ||
                                exists j :: 0 <= j < |chain| && IsNearestLongest(data, chain, i, |chain|, j)
                                  && LongerAhead(data, ahead, i, MatchLength(data, chain[j], i)))
  {
    hide MatchLength, Bucket, IsNearestLongest, Usable;
    var chain := table[Bucket(data, i)];
    var f := Search(data, chain, i, |chain|);
    SearchIsLongest(data, chain, i, |chain|);
    if f.loc.Some? {
      var j :| 0 <= j < |chain| && IsNearestLongest(data, chain, i, |chain|, j)
               && f == Found(MatchLength(data, chain[j], i), Some(chain[j]));
      NearestIsUsable(data, chain, i, |chain|, j);
      forall k | 0 <= k < |chain| && IsNearestLongest(data, chain, i, |chain|, k) ensures k == j {
        NearestUnique(data, chain, i, |chain|, j, k);
      }
    } else if exists j :: 0 <= j < |chain| && IsNearestLongest(data, chain, i, |chain|, j) {
      var j :| 0 <= j < |chain| && IsNearestLongest(data, chain, i, |chain|, j);
      NearestIsUsable(data, chain, i, |chain|, j);
    }
  }

  /** Some entry within 32767 bytes matches more than `best` bytes at the position after `i`. */
  ghost predicate LongerAhead(data: seq<byte>, ahead: seq<nat>, i: nat, best: nat)
    requires i < |data| && ValidChain(ahead, i + 1)
  {
    exists j :: 0 <= j < |ahead| && (i + 1) - ahead[j] < 32768 && MatchLength(data, ahead[j], i + 1) > best
  }

  lemma NearestIsUsable(data: seq<byte>, chain: seq<nat>, i: nat, n: nat, j: nat)
    requires j < n <= |chain| && i <= |data| && ValidChain(chain, i) && IsNearestLongest(data, chain, i, n, j)
    ensures Usable(data, chain, i, j)
  {
    hide MatchLength;
  }

  lemma NearestUnique(data: seq<byte>, chain: seq<nat>, i: nat, n: nat, j: nat, k: nat)
    requires j < n <= |chain| && k < n && i <= |data| && ValidChain(chain, i)
    requires IsNearestLongest(data, chain, i, n, j) && IsNearestLongest(data, chain, i, n, k)
    ensures j == k
  {
    hide MatchLength;
  }

  /** The token at `i` is valid, stays inside the data, and expands the prefix `data[..i]` correctly. */
  lemma ChooseExpands(data: seq<byte>, table: seq<seq<nat>>, quality: nat, i: nat)
    requires quality > 0 && i + 3 < |data| && ValidTable(data, table, quality, i)
    ensures ValidTable(data, Record(data, table, quality, i), quality, i + 1)
    ensures var t := Choose(data, table, Record(data, table, quality, i), i);
            && ValidToken(t)
            && (t.Match? ==> t.distance <= i && t.distance <= 32767)
            && 1 <= TokenSize(t) && i + TokenSize(t) <= |data|
            && ExpandToken(data[..i], t) == Some(data[..i + TokenSize(t)])
  {
    hide Bucket, Push, MatchFrom;
    RecordKeepsTable(data, table, quality, i);
    var chain := table[Bucket(data, i)];
    SearchIsLongest(data, chain, i, |chain|);
    var next := Record(data, table, quality, i);
    var t := Choose(data, table, next, i);
    if t.Match? {
      var p := i - t.distance;
      assert t.length == MatchLength(data, p, i);
      MatchFromIsMaximal(data, p, i, 0);
      CopyBackRebuilds(data, p, i, t.length, 0);
      assert data[..i + 0] == data[..i];
    } else {
      assert data[..i] + [data[i]] == data[..i + 1];
    }
  }

  /** An overlapping copy still reproduces the data: every byte read has already been rebuilt. */
  lemma {:induction false} CopyBackRebuilds(data: seq<byte>, p: nat, i: nat, n: nat, k: nat)
    requires p < i && k <= n && i + n <= |data|
    requires forall m :: 0 <= m < n ==> Agree(data, p, i, m)
    ensures CopyBack(data[..i + k], n - k, i - p) == data[..i + n]
    decreases n - k
  {
    if k < n {
      var out := data[..i + k];
      assert Agree(data, p, i, k);
      assert out[|out| - (i - p)] == data[p + k] == data[i + k];
      assert out + [data[i + k]] == data[..i + (k + 1)];
      CopyBackRebuilds(data, p, i, n, k + 1);
    }
  }

  lemma ExpandCons(t: Token, ts: seq<Token>, out: seq<byte>)
    requires ExpandToken(out, t).Some?
    ensures Expand([t] + ts, out) == Expand(ts, ExpandToken(out, t).value)
  {
    hide ExpandToken;
    assert ([t] + ts)[1..] == ts;
  }

  function Literals(bs: seq<byte>): (r: seq<Token>)
    ensures ValidTokens(r)
  {
    if bs == [] then [] else [Literal(bs[0])] + Literals(bs[1..])
  }

  lemma {:induction false} LiteralsExpand(bs: seq<byte>, out: seq<byte>)
    ensures Expand(Literals(bs), out) == Some(out + bs)
  {
    hide CopyBack;
    if bs == [] {
      assert out + bs == out;
    } else {
      var t := Literal(bs[0]);
      LiteralsExpand(bs[1..], out + [bs[0]]);
      ExpandCons(t, Literals(bs[1..]), out);
      assert (out + [bs[0]]) + bs[1..] == out + bs;
    }
  }

  /** The whole token stream from position `i` on; the last three bytes are always literals. */
  ghost function Tokens(data: seq<byte>, quality: nat, table: seq<seq<nat>>, i: nat): (r: seq<Token>)
    requires quality > 0 && i <= |data| && ValidTable(data, table, quality, i)
    ensures ValidTokens(r)
    decreases |data| - i
  {
    if i + 3 >= |data| then Literals(data[i..])
    else
      ChooseExpands(data, table, quality, i);
      var next := Record(data, table, quality, i);
      var t := Choose(data, table, next, i);
      TableAges(data, next, quality, i + 1, i + TokenSize(t));
      [t] + Tokens(data, quality, next, i + TokenSize(t))
  }

  /** Expanding the tokens rebuilds the data, whatever was evicted, skipped or taken lazily. */
  lemma {:induction false} TokensExpand(data: seq<byte>, quality: nat, table: seq<seq<nat>>, i: nat)
    requires quality > 0 && i <= |data| && ValidTable(data, table, quality, i)
    ensures Expand(Tokens(data, quality, table, i), data[..i]) == Some(data)
    decreases |data| - i
  {
    hide Choose, ExpandToken, Record;
    if i + 3 >= |data| {
      LiteralsExpand(data[i..], data[..i]);
      assert data[..i] + data[i..] == data;
    } else {
      ChooseExpands(data, table, quality, i);
      var next := Record(data, table, quality, i);
      var t := Choose(data, table, next, i);
      TableAges(data, next, quality, i + 1, i + TokenSize(t));
      TokensExpand(data, quality, next, i + TokenSize(t));
      ExpandCons(t, Tokens(data, quality, next, i + TokenSize(t)), data[..i]);
    }
  }
}
