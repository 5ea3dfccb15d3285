/** stbi_zlib_compress as it runs: hash table, bit buffer and output updated in place. */
module ZlibEncoder {
  import opened Bits
  import opened FixedCode
  import opened Inflate
  import opened MatchFinder
  import opened Adler32
  import opened BitWriter
  import opened ZlibCompress

  // ----- code tables

  const LENGTHC: seq<nat> :=
    [3, 4, 5, 6, 7, 8, 9, 10, 11, 13, 15, 17, 19, 23, 27, 31, 35, 43, 51, 59, 67, 83, 99, 115, 131, 163, 195, 227,
     258, 259]
  const LENGTHEB: seq<nat> := [0, 0, 0, 0, 0, 0, 0, 0, 1, 1, 1, 1, 2, 2, 2, 2, 3, 3, 3, 3, 4, 4, 4, 4, 5, 5, 5, 5, 0]
  const DISTC: seq<nat> :=
    [1, 2, 3, 4, 5, 7, 9, 13, 17, 25, 33, 49, 65, 97, 129, 193, 257, 385, 513, 769, 1025, 1537, 2049, 3073, 4097,
     6145, 8193, 12289, 16385, 24577, 32768]
  const DISTEB: seq<nat> :=
    [0, 0, 0, 0, 1, 1, 2, 2, 3, 3, 4, 4, 5, 5, 6, 6, 7, 7, 8, 8, 9, 9, 10, 10, 11, 11, 12, 12, 13, 13]

  /** The tables are those of section 3.2.5 of RFC 1951. */
  lemma {:induction false} LengthTables(j: nat)
    requires j < 29
    ensures LENGTHC[j] == LengthBase(257 + j) && LENGTHEB[j] == LengthExtra(257 + j)
    ensures j < 27 ==> LENGTHC[j + 1] == LengthBase(257 + j + 1)
  {
    LengthExtraTable(j);
    if j > 0 {
      LengthTables(j - 1);
      LengthTableSteps(j);
    }
    if j < 27 { LengthTableSteps(j + 1); }
    hide Pow2;
  }

  lemma LengthExtraTable(j: nat)
    requires j < 29
    ensures LENGTHEB[j] == LengthExtra(257 + j)
  {
  }

  lemma LengthTableSteps(j: nat)
    requires 0 < j < 29
    ensures j < 28 ==> LENGTHC[j] == LENGTHC[j - 1] + Pow2(LengthExtra(256 + j))
    ensures j == 28 ==> LENGTHC[j] == 258
  {
    Pow2Values();
    hide Pow2;
  }

  lemma DistanceExtraTable(j: nat)
    requires j < 30
    ensures DISTEB[j] == DistanceExtra(j)
  {
  }

  lemma DistanceTableSteps(j: nat)
    requires 0 < j < 30
    ensures DISTC[j] == DISTC[j - 1] + Pow2(DistanceExtra(j - 1))
  {
    Pow2Values();
    if j < 15 {
    } else {
    }
  }

  lemma {:induction false} DistanceTables(j: nat)
    requires j < 30
    ensures DISTC[j] == DistanceBase(j) && DISTEB[j] == DistanceExtra(j)
  {
    DistanceExtraTable(j);
    if j > 0 {
      DistanceTables(j - 1);
      DistanceTableSteps(j);
    }
  }

  lemma Pow2Values()
    ensures Pow2(0) == 1 && Pow2(1) == 2 && Pow2(2) == 4 && Pow2(3) == 8 && Pow2(4) == 16 && Pow2(5) == 32
    ensures Pow2(6) == 64 && Pow2(7) == 128 && Pow2(8) == 256 && Pow2(9) == 512 && Pow2(10) == 1024
    ensures Pow2(11) == 2048 && Pow2(12) == 4096 && Pow2(13) == 8192
  {
  }

  lemma {:induction false} LengthBaseIncreasing(a: nat, b: nat)
    requires 257 <= a <= b <= 285
    ensures LengthBase(a) <= LengthBase(b) && (a < b ==> LengthBase(a) < LengthBase(b))
  {
    if a < b {
      LengthBaseIncreasing(a, b - 1);
      if b == 285 { LengthBaseEnd(); }
    }
  }

  lemma {:induction false} DistanceBaseIncreasing(a: nat, b: nat)
    requires a <= b < 30
    ensures DistanceBase(a) <= DistanceBase(b) && (a < b ==> DistanceBase(a) < DistanceBase(b))
  {
    if a < b { DistanceBaseIncreasing(a, b - 1); }
  }

  /** for (j=0; best > lengthc[j+1]-1; ++j); */
  method LengthIndex(best: nat) returns (j: nat)
    requires 3 <= best <= 258
    ensures j < |LENGTHC| && j < |LENGTHEB| && j < 29 && 257 + j == LengthSymbol(best)
    ensures LENGTHC[j] == LengthBase(257 + j) && LENGTHEB[j] == LengthExtra(257 + j)
  {
    hide LengthBase, LengthSymbol, LengthExtra;
    j := 0;
    while best > LENGTHC[j + 1] - 1
      invariant j < 29 && LENGTHC[j] <= best
      decreases 29 - j
    {
      j := j + 1;
    }
    ghost var ls := LengthSymbol(best);
    LengthSymbolFound(best);
    LengthTables(j);
    if 257 + j < ls { LengthTables(j + 1); LengthBaseIncreasing(258 + j, ls); }
    if ls < 257 + j { LengthBaseIncreasing(ls + 1, 257 + j); }
  }

  /** for (j=0; d > distc[j+1]-1; ++j); */
  method DistanceIndex(d: nat) returns (j: nat)
    requires 1 <= d <= 32767
    ensures j < |DISTC| && j < |DISTEB| && j < 30 && j == DistanceSymbol(d)
    ensures DISTC[j] == DistanceBase(j) && DISTEB[j] == DistanceExtra(j)
  {
    hide DistanceBase, DistanceSymbol, DistanceExtra;
    j := 0;
    while d > DISTC[j + 1] - 1
      invariant j < 30 && DISTC[j] <= d
      decreases 30 - j
    {
      j := j + 1;
    }
    ghost var ds := DistanceSymbol(d);
    DistanceSymbolFound(d);
    DistanceTables(j);
    if j < ds { DistanceTables(j + 1); DistanceBaseIncreasing(j + 1, ds); }
    if ds < j { DistanceBaseIncreasing(ds + 1, j); }
  }

  /** Extra bits; a code without any adds nothing. */
  method EmitExtra(w: Writer, extra: nat, bits: nat)
    requires w.Valid() && bits <= 24 && extra < Pow2(bits)
    modifies w
    ensures w.Valid() && w.Stream() == old(w.Stream()) + LSB(extra, bits)
    ensures old(w.out) <= w.out
  {
    if bits != 0 {
      w.Add(extra, bits);
    } else {
      assert LSB(extra, bits) == [];
    }
  }

  /** A length/distance pair: symbol, extra bits, five-bit distance code, extra bits. */
  method EmitMatch(w: Writer, best: nat, d: nat)
    requires w.Valid() && 3 <= best <= 258 && 1 <= d <= 32767
    modifies w
    ensures w.Valid() && w.Stream() == old(w.Stream()) + TokenBits(Match(best, d))
    ensures old(w.out) <= w.out
  {
    hide *;
    ghost var start := w.Stream();
    MatchParts(start, best, d);
    var j := LengthIndex(best);
    var base, bits := LENGTHC[j], LENGTHEB[j];
    w.Huff(j + 257);
    EmitExtra(w, best - base, bits);
    j := DistanceIndex(d);
    base, bits := DISTC[j], DISTEB[j];
    w.HuffA(j, 5);
    EmitExtra(w, d - base, bits);
  }

  lemma MatchParts(start: seq<bool>, best: nat, d: nat)
    requires 3 <= best <= 258 && 1 <= d <= 32767
    ensures ValidToken(Match(best, d))
    ensures var ls, ds := LengthSymbol(best), DistanceSymbol(d);
            && 257 <= ls <= 285 && ds < 30
            && 0 <= best - LengthBase(ls) < Pow2(LengthExtra(ls)) && 0 <= d - DistanceBase(ds) < Pow2(DistanceExtra(ds))
            && (((start + SymbolBits(ls)) + LSB(best - LengthBase(ls), LengthExtra(ls)))
                + MSB(ds, 5)) + LSB(d - DistanceBase(ds), DistanceExtra(ds)) == start + TokenBits(Match(best, d))
  {
    hide LengthBase, DistanceBase, SymbolBits, LSB, MSB;
    ExtraBitsFit(Match(best, d));
    var ls, ds := LengthSymbol(best), DistanceSymbol(d);
    JoinParts(start, SymbolBits(ls), LSB(best - LengthBase(ls), LengthExtra(ls)),
              MSB(ds, 5), LSB(d - DistanceBase(ds), DistanceExtra(ds)));
  }

  lemma JoinParts(s: seq<bool>, a: seq<bool>, b: seq<bool>, c: seq<bool>, d: seq<bool>)
    ensures (((s + a) + b) + c) + d == s + (a + (b + (c + d)))
  {
  }

  // ----- matching

  /** stbiw__zlib_countm */
  method CountMatch(data: seq<byte>, a: nat, b: nat, limit: nat) returns (i: nat)
    requires a < b <= |data| && limit == |data| - b
    ensures i == MatchLength(data, a, b)
  {
    i := 0;
    while i < limit && i < 258
      invariant i <= limit && i <= 258
      invariant MatchFrom(data, a, b, 0) == MatchFrom(data, a, b, i)
    {
      if data[a + i] != data[b + i] { break; }
      i := i + 1;
    }
  }

  method FindMatch(data: seq<byte>, hlist: seq<nat>, i: nat) returns (best: nat, bestloc: Option<nat>)
    requires i <= |data| && ValidChain(hlist, i)
    ensures Found(best, bestloc) == Search(data, hlist, i, |hlist|)
  {
    hide MatchLength;
    best, bestloc := 3, None;
    for j := 0 to |hlist|
      invariant Found(best, bestloc) == Search(data, hlist, i, j)
    {
      if hlist[j] > i - 32768 {
        var d := CountMatch(data, hlist[j], i, |data| - i);
        if d >= best { best, bestloc := d, Some(hlist[j]); }
      }
    }
  }

  /** Lazy matching: is there a longer match one byte further on? */
  method LookAhead(data: seq<byte>, hlist: seq<nat>, i: nat, best: nat) returns (better: bool)
    requires i < |data| && ValidChain(hlist, i + 1)
    ensures better == BetterAhead(data, hlist, i, best)
  {
    hide MatchLength;
    better := false;
    var j := 0;
    while j < |hlist|
      invariant 0 <= j <= |hlist|
      invariant forall k :: 0 <= k < j && hlist[k] > i - 32767 ==> MatchLength(data, hlist[k], i + 1) <= best
    {
      if hlist[j] > i - 32767 {
        var e := CountMatch(data, hlist[j], i + 1, |data| - i - 1);
        if e > best { return true; }
      }
      j := j + 1;
    }
  }

  /** The search at position `i`, updating the hash table on the way. */
  method MatchAt(data: seq<byte>, hash_table: array<seq<nat>>, quality: nat, i: nat)
    returns (best: nat, bestloc: Option<nat>)
    requires quality > 0 && i + 3 < |data| && hash_table.Length == BUCKETS
    requires ValidTable(data, hash_table[..], quality, i)
    modifies hash_table
    ensures hash_table[..] == Record(data, old(hash_table[..]), quality, i)
    ensures ValidTable(data, hash_table[..], quality, i + 1)
    ensures var t := Choose(data, old(hash_table[..]), hash_table[..], i);
            if bestloc.Some? then bestloc.value < i && t == Match(best, i - bestloc.value) else t == Literal(data[i])
  {
    hide Bucket, Search, BetterAhead;
    ghost var table := hash_table[..];
    RecordKeepsTable(data, table, quality, i);
    var h := Bucket(data, i);
    var hlist := hash_table[h];
    assert table[h] == hlist;
    best, bestloc := FindMatch(data, hlist, i);
    if |hash_table[h]| == 2 * quality {
      hash_table[h] := hash_table[h][quality..];   // the older half goes
    }
    hash_table[h] := hash_table[h] + [i];
    assert hash_table[..] == Record(data, table, quality, i);
    if bestloc.Some? {
      h := Bucket(data, i + 1);
      hlist := hash_table[h];
      assert hash_table[..][h] == hlist;
      var better := LookAhead(data, hlist, i, best);
      if better { bestloc := None; }
    }
  }

  // ----- the two output forms

  lemma {:induction false} LiteralsBits(bs: seq<byte>)
    requires bs != []
    ensures TokensBits(Literals(bs)) == SymbolBits(bs[0]) + TokensBits(Literals(bs[1..]))
  {
    hide SymbolBits;
    assert Literals(bs)[1..] == Literals(bs[1..]);
  }

  /** The main loop: one token per round, the position advanced by what the token covers. */
  method EmitTokens(data: seq<byte>, quality: nat, w: Writer)
    requires quality > 0 && ValidTable(data, EmptyTable(), quality, 0) && w.Valid()
    modifies w
    ensures w.Valid() && old(w.out) <= w.out
    ensures w.Stream() == old(w.Stream()) + TokensBits(Tokens(data, quality, EmptyTable(), 0))
  {
    hide SymbolBits, Literals, Record, Choose, TokensBits, Bucket, Tokens, w.Stream, BitsOfBytes, LSB, TokenBits,
         EmptyTable;
    var hash_table := new seq<nat>[BUCKETS](_ => []);
    NoEntries(hash_table[..]);
    ghost var goal := w.Stream() + TokensBits(Tokens(data, quality, EmptyTable(), 0));
    var i: nat := 0;
    while i + 3 < |data|
      invariant i <= |data| && w.Valid() && old(w.out) <= w.out
      invariant hash_table.Length == BUCKETS && ValidTable(data, hash_table[..], quality, i)
      invariant w.Stream() + TokensBits(Tokens(data, quality, hash_table[..], i)) == goal
      decreases |data| - i
    {
      i := EmitToken(data, quality, w, hash_table, i, goal);
    }
    TailTokens(data, quality, hash_table[..], i);
    EmitTail(data, w, i);
  }

  lemma NoEntries(table: seq<seq<nat>>)
    requires |table| == BUCKETS && forall h :: 0 <= h < BUCKETS ==> table[h] == []
    ensures table == EmptyTable()
  {
  }

  /** One round of the main loop. */
  method EmitToken(data: seq<byte>, quality: nat, w: Writer, hash_table: array<seq<nat>>, i: nat, ghost goal: seq<bool>)
    returns (next: nat)
    requires quality > 0 && i + 3 < |data| && w.Valid()
    requires hash_table.Length == BUCKETS && ValidTable(data, hash_table[..], quality, i)
    requires w.Stream() + TokensBits(Tokens(data, quality, hash_table[..], i)) == goal
    modifies w, hash_table
    ensures i < next <= |data| && w.Valid() && old(w.out) <= w.out
    ensures ValidTable(data, hash_table[..], quality, next)
    ensures w.Stream() + TokensBits(Tokens(data, quality, hash_table[..], next)) == goal
  {
    hide SymbolBits, Record, Choose, TokensBits, Bucket, Tokens, w.Stream, BitsOfBytes, LSB, MatchBits;
    ghost var table, before := hash_table[..], w.Stream();
    NextToken(data, quality, table, i);
    var best, bestloc := MatchAt(data, hash_table, quality, i);
    ghost var t := Choose(data, table, hash_table[..], i);
    if bestloc.Some? {
      var d := i - bestloc.value;
      EmitMatch(w, best, d);
      next := i + best;
    } else {
      w.HuffB(data[i]);
      next := i + 1;
    }
    ghost var more := TokensBits(Tokens(data, quality, hash_table[..], next));
    assert w.Stream() == before + TokenBits(t);
    assert (before + TokenBits(t)) + more == before + (TokenBits(t) + more);
  }

  /** The last bytes go out as literals. */
  method EmitTail(data: seq<byte>, w: Writer, start: nat)
    requires start <= |data| && w.Valid()
    modifies w
    ensures w.Valid() && old(w.out) <= w.out
    ensures w.Stream() == old(w.Stream()) + TokensBits(Literals(data[start..]))
  {
    hide SymbolBits, Literals, TokensBits, w.Stream, BitsOfBytes, LSB;
    var i := start;
    ghost var goal := w.Stream() + TokensBits(Literals(data[start..]));
    while i < |data|
      invariant i <= |data| && w.Valid() && old(w.out) <= w.out
      invariant w.Stream() + TokensBits(Literals(data[i..])) == goal
    {
      LiteralsBits(data[i..]);
      assert data[i..][1..] == data[i + 1..];
      ghost var before, more := w.Stream(), TokensBits(Literals(data[i + 1..]));
      w.HuffB(data[i]);
      assert (before + SymbolBits(data[i])) + more == before + (SymbolBits(data[i]) + more);
      i := i + 1;
    }
    NoLiterals(data[i..]);
  }

  /** One fixed-Huffman block: header bits, tokens, end of block, padding. */
  method WriteFixed(data: seq<byte>, quality: nat) returns (out: seq<byte>)
    requires quality == Effort(quality)
    ensures out == HEADER + Pack(FixedBlock(data, quality))
  {
    hide SymbolBits, TokensBits, FixedBlock, Tokens, LSB, BitsOfBytes, Pack, EmptyTable;
    var w := new Writer(HEADER);
    ghost var start := BitsOfBytes(HEADER);
    BlockHeaderBits();
    w.Add(1, 1);    // BFINAL = 1
    w.Add(1, 2);    // BTYPE = 1, fixed Huffman
    assert w.Stream() == start + ([true] + [true, false]);
    InitialTable(data, quality);
    EmitTokens(data, quality, w);
    w.Huff(256);    // end of block
    FixedBlockParts(data, quality, start);
    w.Pad();
    out := w.out;
    PackedOutput(out, FixedBlock(data, quality), w);
  }

  lemma BlockHeaderBits()
    ensures 1 < Pow2(1) && 1 < Pow2(2)
    ensures LSB(1, 1) == [true] && LSB(1, 2) == [true, false]
  {
  }

  lemma FixedBlockParts(data: seq<byte>, quality: nat, start: seq<bool>)
    ensures ((start + ([true] + [true, false])) + TokensBits(AllTokens(data, quality))) + SymbolBits(256) ==
            start + FixedBlock(data, quality)
  {
    hide TokensBits, SymbolBits, Tokens;
  }

  /** What the main loop has to append at `i`. */
  lemma NextToken(data: seq<byte>, quality: nat, table: seq<seq<nat>>, i: nat)
    requires quality > 0 && i + 3 < |data| && ValidTable(data, table, quality, i)
    ensures var next := Record(data, table, quality, i);
            && ValidTable(data, next, quality, i + 1)
            && var t := Choose(data, table, next, i);
               && ValidToken(t) && (t.Match? ==> t.distance <= 32767) && i + TokenSize(t) <= |data|
               && ValidTable(data, next, quality, i + TokenSize(t))
               && TokensBits(Tokens(data, quality, table, i)) ==
                  TokenBits(t) + TokensBits(Tokens(data, quality, next, i + TokenSize(t)))
  {
    hide Choose, Record, ExpandToken, TokenBits, Bucket, ValidChain, TokensBits;
    ChooseExpands(data, table, quality, i);
    var next := Record(data, table, quality, i);
    var t := Choose(data, table, next, i);
    TableAges(data, next, quality, i + 1, i + TokenSize(t));
    hide ValidTable, TokenSize;
    FirstTokenBits(t, Tokens(data, quality, next, i + TokenSize(t)));
  }

  lemma FirstTokenBits(t: Token, more: seq<Token>)
    requires ValidToken(t) && ValidTokens(more)
    ensures ValidTokens([t] + more) && TokensBits([t] + more) == TokenBits(t) + TokensBits(more)
  {
    hide TokenBits, ValidToken;
    assert ([t] + more)[1..] == more;
  }

  lemma TailTokens(data: seq<byte>, quality: nat, table: seq<seq<nat>>, i: nat)
    requires quality > 0 && |data| <= i + 3 && i <= |data| && ValidTable(data, table, quality, i)
    ensures Tokens(data, quality, table, i) == Literals(data[i..])
  {
  }

  lemma NoLiterals(bs: seq<byte>)
    requires bs == []
    ensures TokensBits(Literals(bs)) == []
  {
  }

  /** With nothing pending, the bytes written are the header and the packed block. */
  lemma PackedOutput(out: seq<byte>, bits: seq<bool>, w: Writer)
    requires w.bitcount == 0 && w.out == out && HEADER <= out
    requires exists k :: 0 <= k < 8 && w.Stream() == BitsOfBytes(HEADER) + bits + Zeros(k)
    ensures out == HEADER + Pack(bits)
  {
    hide Pack;
    var k :| 0 <= k < 8 && w.Stream() == BitsOfBytes(HEADER) + bits + Zeros(k);
    var body := out[2..];
    assert out == HEADER + body;
    BitsOfBytesAppend(HEADER, body);
    var h := BitsOfBytes(HEADER);
    assert LSB(w.bitbuf, 0) == [];
    assert h + bits + Zeros(k) == h + (bits + Zeros(k));
    assert w.Stream() == h + BitsOfBytes(body);
    assert BitsOfBytes(body) == (h + BitsOfBytes(body))[|h|..] == bits + Zeros(k);
    PackUnique(body, bits, k);
  }

  /** Stored blocks: BFINAL with BTYPE = 0, LEN, NLEN, the bytes. */
  method WriteStored(data: seq<byte>, header: seq<byte>) returns (out: seq<byte>)
    ensures out == header + StoredBlocks(data)
  {
    hide StoredBlocks, StoredHeader;
    out := header;
    var j: nat := 0;
    assert data[0..] == data;
    while j < |data|
      invariant j <= |data|
      invariant out + StoredBlocks(data[j..]) == header + StoredBlocks(data)
    {
      var blocklen: nat := |data| - j;
      if blocklen > 32767 { blocklen := 32767; }
      var inverted: int := -1 - blocklen;   // ~blocklen
      var last: byte := if |data| - j == blocklen then 1 else 0;
      ghost var before, rest := out, data[j..];
      StoredHeaderBytes(last, blocklen);
      StoredBlocksStep(rest, blocklen);
      out := out + [last, blocklen % 256, blocklen / 256 % 256, inverted % 256, inverted / 256 % 256];
      out := out + data[j..j + blocklen];
      assert rest[..blocklen] == data[j..j + blocklen] && rest[blocklen..] == data[j + blocklen..];
      j := j + blocklen;
      JoinStored(before, StoredHeader(last == 1, blocklen), rest[..blocklen], StoredBlocks(data[j..]));
    }
    assert data[j..] == [];
    StoredBlocksEnd(data[j..]);
    assert out + [] == out;
  }

  lemma StoredBlocksEnd(rest: seq<byte>)
    requires rest == []
    ensures StoredBlocks(rest) == []
  {
  }

  lemma StoredBlocksStep(rest: seq<byte>, len: nat)
    requires rest != [] && len == if |rest| > 32767 then 32767 else |rest|
    ensures StoredBlocks(rest) == StoredHeader(len == |rest|, len) + rest[..len] + StoredBlocks(rest[len..])
  {
  }

  lemma JoinStored(a: seq<byte>, b: seq<byte>, c: seq<byte>, d: seq<byte>)
    ensures (a + b + c) + d == a + (b + c + d)
  {
  }

  /** The five bytes pushed per block, ~len in two's complement and every value cut to a byte. */
  lemma StoredHeaderBytes(last: byte, len: nat)
    requires len <= 32767 && last <= 1
    ensures var inverted: int := -1 - len;
            StoredHeader(last == 1, len) == [last, len % 256, len / 256 % 256, inverted % 256, inverted / 256 % 256]
  {
    var lo, hi, inverted: int := len % 256, len / 256, -1 - len;
    assert inverted == (-1 - hi) * 256 + (255 - lo);
    QuotientUnique(inverted, 256, -1 - hi, 255 - lo);
    QuotientUnique(-1 - hi, 256, -1, 255 - hi);
  }

  /** stbi_zlib_compress */
  method Compress(data: seq<byte>, quality: int) returns (out: seq<byte>)
    ensures out == Compressed(data, quality)
    ensures Decompress(out) == Some(data) <==> data != []
  {
    hide FixedBlock, StoredBlocks, Pack, Decompress, Adler;
    RoundTripIff(data, quality);
    var effort := quality;
    if effort < 5 { effort := 5; }
    out := WriteFixed(data, effort);
    assert FixedBlock(data, effort) == FixedBlock(data, quality) by { SameEffort(data, quality, effort); }
    if |out| > |data| + 2 + (|data| + 32766) / 32767 * 5 {
      out := WriteStored(data, out[..2]);
    }
    var s1, s2 := Checksum(data);
    TrailerBytes(s1, s2);
    out := out + [s2 / 256 % 256, s2 % 256, s1 / 256 % 256, s1 % 256];
  }

  lemma SameEffort(data: seq<byte>, quality: int, effort: nat)
    requires effort == Effort(quality)
    ensures FixedBlock(data, effort) == FixedBlock(data, quality)
  {
  }
}
