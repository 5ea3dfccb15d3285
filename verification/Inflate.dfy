/**
 * What a DEFLATE stream means: a decoder written from sections 3.2.3 to 3.2.6 of RFC 1951.
 * Blocks with dynamic Huffman codes (BTYPE 10) are rejected; the encoder never emits one.
 */
module Inflate {
  import opened Bits
  import opened FixedCode

  /** LZ77 output: a byte, or a copy of `length` bytes starting `distance` bytes back. */
  datatype Token = Literal(b: byte) | Match(length: nat, distance: nat)

  predicate ValidToken(t: Token) {
    t.Match? ==> 3 <= t.length <= 258 && 1 <= t.distance <= 32768
  }

  // ----- section 3.2.5: length and distance codes

  function LengthExtra(sym: nat): (r: nat)
    requires 257 <= sym <= 285
    ensures r <= 5
  {
    if sym < 265 || sym == 285 then 0 else (sym - 261) / 4
  }

  /** Each length code covers the lengths just after those of the previous one; 285 is the single length 258. */
  function LengthBase(sym: nat): nat
    requires 257 <= sym <= 285
  {
    if sym == 257 then 3
    else if sym == 285 then 258
    else LengthBase(sym - 1) + Pow2(LengthExtra(sym - 1))
  }

  function DistanceExtra(sym: nat): (r: nat)
    requires sym < 30
    ensures r <= 13
  {
    if sym < 4 then 0 else (sym - 2) / 2
  }

  function DistanceBase(sym: nat): nat
    requires sym < 30
  {
    if sym == 0 then 1 else DistanceBase(sym - 1) + Pow2(DistanceExtra(sym - 1))
  }

  /** The last code at or below `sym` whose range starts at or below `length`. */
  function LengthSymbolBelow(length: nat, sym: nat): (r: nat)
    requires 3 <= length && 257 <= sym <= 285
    ensures 257 <= r <= sym && LengthBase(r) <= length
    ensures r < sym ==> length < LengthBase(r + 1)
  {
    if sym == 257 || LengthBase(sym) <= length then sym else LengthSymbolBelow(length, sym - 1)
  }

  function LengthSymbol(length: nat): nat
    requires 3 <= length <= 258
  {
    LengthSymbolBelow(length, 285)
  }

  function DistanceSymbolBelow(distance: nat, sym: nat): (r: nat)
    requires 1 <= distance && sym < 30
    ensures r <= sym && DistanceBase(r) <= distance
    ensures r < sym ==> distance < DistanceBase(r + 1)
  {
    if sym == 0 || DistanceBase(sym) <= distance then sym else DistanceSymbolBelow(distance, sym - 1)
  }

  function DistanceSymbol(distance: nat): nat
    requires 1 <= distance <= 32768
  {
    DistanceSymbolBelow(distance, 29)
  }

  /** From 265 on four codes share each number of extra bits. */
  lemma {:induction false} LengthBaseGroup(m: nat)
    requires 1 <= m <= 5
    ensures LengthBase(261 + 4 * m) == 4 * Pow2(m) + 3
  {
    hide LengthBase;
    if m == 1 {
      assert LengthBase(257) == 3 by { FirstLength(); }
      FourLengths(257, 0);
      FourLengths(261, 0);
    } else {
      LengthBaseGroup(m - 1);
      FourLengths(257 + 4 * m, m - 1);
    }
  }

  lemma FirstLength()
    ensures LengthBase(257) == 3
  {
  }

  lemma FourLengths(sym: nat, extra: nat)
    requires 257 <= sym <= 280 && forall s :: sym <= s < sym + 4 ==> LengthExtra(s) == extra
    ensures LengthBase(sym + 4) == LengthBase(sym) + 4 * Pow2(extra)
  {
    hide Pow2, LengthExtra;
    assert LengthBase(sym + 3) == LengthBase(sym + 2) + Pow2(extra);
    assert LengthBase(sym + 2) == LengthBase(sym + 1) + Pow2(extra);
  }

  lemma LengthBaseEnd()
    ensures LengthBase(284) + 31 == 258
  {
    LengthBaseGroup(5);
    assert LengthBase(282) == LengthBase(281) + Pow2(5);
    assert LengthBase(283) == LengthBase(282) + Pow2(5);
    assert Pow2(5) == 32;
  }

  /** Two distance codes share each number of extra bits. */
  lemma {:induction false} DistanceBasePair(m: nat)
    requires 1 <= m <= 14
    ensures DistanceBase(2 * m) == Pow2(m) + 1 && DistanceBase(2 * m + 1) == Pow2(m) + Pow2(m - 1) + 1
  {
    assert DistanceBase(2 * m + 1) == DistanceBase(2 * m) + Pow2(DistanceExtra(2 * m));
    assert DistanceBase(2 * m) == DistanceBase(2 * m - 1) + Pow2(DistanceExtra(2 * m - 1));
    assert DistanceExtra(2 * m) == m - 1 && (m > 1 ==> DistanceExtra(2 * m - 1) == m - 2);
    hide DistanceExtra;
    if m > 1 { DistanceBasePair(m - 1); }
  }

  lemma DistanceBaseEnd()
    ensures DistanceBase(29) == 24577
  {
    hide DistanceBase;
    DistanceBasePair(14);
    assert Pow2(7) == 128;
    assert Pow2(13) == 8192;
  }

  lemma NextLengthBase(sym: nat)
    requires 257 <= sym < 284
    ensures LengthBase(sym + 1) == LengthBase(sym) + Pow2(LengthExtra(sym))
  {
  }

  lemma NextDistanceBase(sym: nat)
    requires sym < 29
    ensures DistanceBase(sym + 1) == DistanceBase(sym) + Pow2(DistanceExtra(sym))
  {
  }

  /** The last length code with extra bits, and the single length after it. */
  lemma LastLengths(length: nat)
    requires LengthBase(284) <= length < LengthBase(285)
    ensures length - LengthBase(284) < Pow2(LengthExtra(284))
  {
    LengthBaseEnd();
    assert LengthExtra(284) == 5 && Pow2(5) == 32;
  }

  lemma LastDistances(distance: nat)
    requires DistanceBase(29) <= distance <= 32768
    ensures distance - DistanceBase(29) < Pow2(DistanceExtra(29))
  {
    hide DistanceBase;
    DistanceBaseEnd();
    assert Pow2(7) == 128;
    assert DistanceExtra(29) == 13 && Pow2(13) == 8192;
  }

  lemma SingleLength()
    ensures LengthBase(285) == 258 && LengthExtra(285) == 0 && Pow2(0) == 1
  {
  }

  lemma LengthSymbolFound(length: nat)
    requires 3 <= length <= 258
    ensures var r := LengthSymbol(length);
            257 <= r <= 285 && LengthBase(r) <= length && (r < 285 ==> length < LengthBase(r + 1))
  {
    hide LengthSymbolBelow, LengthBase;
  }

  lemma DistanceSymbolFound(distance: nat)
    requires 1 <= distance <= 32768
    ensures var r := DistanceSymbol(distance);
            r < 30 && DistanceBase(r) <= distance && (r < 29 ==> distance < DistanceBase(r + 1))
  {
    hide DistanceSymbolBelow, DistanceBase;
  }

  lemma LengthRemainderFits(length: nat)
    requires 3 <= length <= 258
    ensures var ls := LengthSymbol(length);
            257 <= ls <= 285 && 0 <= length - LengthBase(ls) < Pow2(LengthExtra(ls))
  {
    hide *;
    LengthSymbolFound(length);
    SingleLength();
    var ls := LengthSymbol(length);
    if ls < 284 { NextLengthBase(ls); } else if ls == 284 { LastLengths(length); }
  }

  lemma DistanceRemainderFits(distance: nat)
    requires 1 <= distance <= 32768
    ensures var ds := DistanceSymbol(distance);
            ds < 30 && 0 <= distance - DistanceBase(ds) < Pow2(DistanceExtra(ds))
  {
    hide *;
    DistanceSymbolFound(distance);
    var ds := DistanceSymbol(distance);
    if ds < 29 { NextDistanceBase(ds); } else { LastDistances(distance); }
  }

  lemma ValidRange(t: Token)
    requires t.Match? && ValidToken(t)
    ensures 3 <= t.length <= 258 && 1 <= t.distance <= 32768
  {
  }

  lemma ExtraBitsFit(t: Token)
    requires t.Match? && ValidToken(t)
    ensures var ls := LengthSymbol(t.length);
            0 <= t.length - LengthBase(ls) < Pow2(LengthExtra(ls))
    ensures var ds := DistanceSymbol(t.distance);
            0 <= t.distance - DistanceBase(ds) < Pow2(DistanceExtra(ds))
  {
    hide *;
    ValidRange(t);
    LengthRemainderFits(t.length);
    DistanceRemainderFits(t.distance);
  }

  // ----- bits of a token, and back

  function MatchBits(length: nat, distance: nat): seq<bool>
    requires ValidToken(Match(length, distance))
  {
    var ls, ds := LengthSymbol(length), DistanceSymbol(distance);
    SymbolBits(ls) + (LSB(length - LengthBase(ls), LengthExtra(ls)) +
    (MSB(ds, 5) + LSB(distance - DistanceBase(ds), DistanceExtra(ds))))
  }

  function TokenBits(t: Token): seq<bool>
    requires ValidToken(t)
  {
    match t
    case Literal(b) => SymbolBits(b)
    case Match(length, distance) => MatchBits(length, distance)
  }

  function ReadLSB(bits: seq<bool>, n: nat): (r: Option<(nat, seq<bool>)>)
    ensures r.Some? ==> |r.value.1| == |bits| - n
  {
    if |bits| < n then None else Some((FromLSB(bits[..n]), bits[n..]))
  }

  datatype Item = Emit(token: Token) | EndOfBlock

  function DecodeDistance(length: nat, bits: seq<bool>): (r: Option<(Item, seq<bool>)>)
    ensures r.Some? ==> |r.value.1| <= |bits|
  {
    if |bits| < 5 then None
    else
      var ds := FromMSB(bits[..5]);
      if ds >= 30 then None
      else match ReadLSB(bits[5..], DistanceExtra(ds))
        case None => None
        case Some((extra, rest)) => Some((Emit(Match(length, DistanceBase(ds) + extra)), rest))
  }

  function DecodeItem(bits: seq<bool>): (r: Option<(Item, seq<bool>)>)
    ensures r.Some? ==> |r.value.1| < |bits|
  {
    match DecodeSymbol(bits)
    case None => None
    case Some((sym, rest)) =>
      if sym < 256 then Some((Emit(Literal(sym)), rest))
      else if sym == 256 then Some((EndOfBlock, rest))
      else if sym > 285 then None
      else match ReadLSB(rest, LengthExtra(sym))
        case None => None
        case Some((extra, rest')) => DecodeDistance(LengthBase(sym) + extra, rest')
  }

  lemma ReadLSBOfBits(x: nat, n: nat, rest: seq<bool>)
    requires x < Pow2(n)
    ensures ReadLSB(LSB(x, n) + rest, n) == Some((x, rest))
  {
    var bits := LSB(x, n) + rest;
    assert bits[..n] == LSB(x, n) && bits[n..] == rest;
    FromLSBOfLSB(x, n);
  }

  lemma DecodeDistanceOfBits(length: nat, ds: nat, extra: nat, rest: seq<bool>)
    requires ds < 30 && extra < Pow2(DistanceExtra(ds))
    ensures DecodeDistance(length, MSB(ds, 5) + (LSB(extra, DistanceExtra(ds)) + rest)) ==
            Some((Emit(Match(length, DistanceBase(ds) + extra)), rest))
  {
    hide MSB, LSB, FromMSB, FromLSB, DistanceBase, DistanceExtra;
    var tail := LSB(extra, DistanceExtra(ds)) + rest;
    var bits := MSB(ds, 5) + tail;
    assert bits[..5] == MSB(ds, 5) && bits[5..] == tail;
    assert Pow2(5) == 32;
    FromMSBOfMSB(ds, 5);
    ReadLSBOfBits(extra, DistanceExtra(ds), rest);
  }

  lemma DecodeLengthOfBits(ls: nat, extra: nat, rest: seq<bool>)
    requires 257 <= ls <= 285 && extra < Pow2(LengthExtra(ls))
    ensures DecodeItem(SymbolBits(ls) + (LSB(extra, LengthExtra(ls)) + rest)) ==
            DecodeDistance(LengthBase(ls) + extra, rest)
  {
    hide SymbolBits, LSB, LengthBase, FromLSB;
    DecodeSymbolOfBits(ls, LSB(extra, LengthExtra(ls)) + rest);
    ReadLSBOfBits(extra, LengthExtra(ls), rest);
  }

  lemma DecodeMatch(t: Token, rest: seq<bool>)
    requires t.Match? && ValidToken(t)
    ensures DecodeItem(TokenBits(t) + rest) == Some((Emit(t), rest))
  {
    hide SymbolBits, LSB, MSB, LengthBase, DistanceBase, DecodeItem, DecodeDistance, LengthSymbolBelow,
         DistanceSymbolBelow;
    ExtraBitsFit(t);
    var ls, ds := LengthSymbol(t.length), DistanceSymbol(t.distance);
    var lextra, dextra := t.length - LengthBase(ls), t.distance - DistanceBase(ds);
    MatchBitsSplit(SymbolBits(ls), LSB(lextra, LengthExtra(ls)), MSB(ds, 5), LSB(dextra, DistanceExtra(ds)), rest);
    DecodeLengthOfBits(ls, lextra, MSB(ds, 5) + (LSB(dextra, DistanceExtra(ds)) + rest));
    DecodeDistanceOfBits(t.length, ds, dextra, rest);
  }

  lemma MatchBitsSplit(a: seq<bool>, b: seq<bool>, c: seq<bool>, d: seq<bool>, e: seq<bool>)
    ensures (a + (b + (c + d))) + e == a + (b + (c + (d + e)))
  {
  }

  /** The code is uniquely decodable, whatever follows. */
  lemma DecodeItemOfToken(t: Token, rest: seq<bool>)
    requires ValidToken(t)
    ensures DecodeItem(TokenBits(t) + rest) == Some((Emit(t), rest))
  {
    match t
    case Literal(b) => DecodeSymbolOfBits(b, rest);
    case Match(_, _) => DecodeMatch(t, rest);
  }

  // ----- expanding tokens

  /** Copies byte by byte, so that a copy may overlap the bytes it produces. */
  function CopyBack(out: seq<byte>, length: nat, distance: nat): (r: seq<byte>)
    requires 1 <= distance <= |out|
    ensures |r| == |out| + length
    decreases length
  {
    if length == 0 then out
    else CopyBack(out + [out[|out| - distance]], length - 1, distance)
  }

  function ExpandToken(out: seq<byte>, t: Token): Option<seq<byte>> {
    match t
    case Literal(b) => Some(out + [b])
    case Match(length, distance) =>
      if 1 <= distance <= |out| then Some(CopyBack(out, length, distance)) else None
  }

  // ----- section 3.2.3: blocks

  function InflateFixed(bits: seq<bool>, out: seq<byte>): (r: Option<(seq<byte>, seq<bool>)>)
    ensures r.Some? ==> |r.value.1| < |bits|
    decreases |bits|
  {
    match DecodeItem(bits)
    case None => None
    case Some((EndOfBlock, rest)) => Some((out, rest))
    case Some((Emit(t), rest)) =>
      match ExpandToken(out, t)
      case None => None
      case Some(out') => InflateFixed(rest, out')
  }

  function ReadBytes(bits: seq<bool>, n: nat): (r: seq<byte>)
    requires |bits| >= 8 * n
    ensures |r| == n
  {
    if n == 0 then [] else [PackedByte(bits[..8])] + ReadBytes(bits[8..], n - 1)
  }

  /** Drops the bits before the next byte boundary; `bits` ends at one. */
  function Align(bits: seq<bool>): (r: seq<bool>)
    ensures |r| == |bits| - |bits| % 8
  {
    bits[|bits| % 8..]
  }

  lemma AlignDrops(bits: seq<bool>, k: nat)
    requires k < 8 && k <= |bits| && (|bits| - k) % 8 == 0
    ensures Align(bits) == bits[k..]
  {
  }

  /** Section 3.2.4: skip to a byte boundary, then LEN, its one's complement NLEN, and LEN bytes. */
  function InflateStored(bits: seq<bool>, out: seq<byte>): (r: Option<(seq<byte>, seq<bool>)>)
    ensures r.Some? ==> |r.value.1| <= |bits|
  {
    var aligned := Align(bits);
    if |aligned| < 32 then None
    else
      var len, nlen := FromLSB(aligned[..16]), FromLSB(aligned[16..32]);
      var body := aligned[32..];
      if len + nlen != 0xffff || |body| < 8 * len then None
      else Some((out + ReadBytes(body, len), body[8 * len..]))
  }

  /** A whole stream; `bits` ends at a byte boundary. */
  function InflateBlocks(bits: seq<bool>, out: seq<byte>): (r: Option<(seq<byte>, seq<bool>)>)
    ensures r.Some? ==> |r.value.1| < |bits|
    decreases |bits|
  {
    if |bits| < 3 then None
    else
      var last, rest := bits[0], bits[3..];
      var block := if !bits[1] && !bits[2] then InflateStored(rest, out)
                   else if bits[1] && !bits[2] then InflateFixed(rest, out)
                   else None;
      match block
      case None => None
      case Some((out', rest')) => if last then block else InflateBlocks(rest', out')
  }

  lemma InflateStoredStep(bits: seq<bool>, out: seq<byte>)
    requires |bits| >= 3 && !bits[1] && !bits[2] && InflateStored(bits[3..], out).Some?
    ensures var block := InflateStored(bits[3..], out);
            InflateBlocks(bits, out) ==
            if bits[0] then block else InflateBlocks(block.value.1, block.value.0)
  {
    hide InflateStored;
  }

  // ----- token lists

  predicate ValidTokens(ts: seq<Token>) {
    forall t :: t in ts ==> ValidToken(t)
  }

  function TokensBits(ts: seq<Token>): seq<bool>
    requires ValidTokens(ts)
  {
    if ts == [] then [] else TokenBits(ts[0]) + TokensBits(ts[1..])
  }

  function Expand(ts: seq<Token>, out: seq<byte>): Option<seq<byte>> {
    if ts == [] then Some(out)
    else match ExpandToken(out, ts[0])
      case None => None
      case Some(out') => Expand(ts[1..], out')
  }

  lemma InflateFixedStep(bits: seq<bool>, out: seq<byte>, t: Token, rest: seq<bool>)
    requires DecodeItem(bits) == Some((Emit(t), rest)) && ExpandToken(out, t).Some?
    ensures InflateFixed(bits, out) == InflateFixed(rest, ExpandToken(out, t).value)
  {
  }

  lemma DecodeEndOfBlock(rest: seq<bool>)
    ensures DecodeItem(SymbolBits(256) + rest) == Some((EndOfBlock, rest))
  {
    DecodeSymbolOfBits(256, rest);
  }

  lemma {:induction false} InflateFixedOfTokens(ts: seq<Token>, out: seq<byte>, rest: seq<bool>)
    requires ValidTokens(ts) && Expand(ts, out).Some?
    ensures InflateFixed(TokensBits(ts) + (SymbolBits(256) + rest), out) == Some((Expand(ts, out).value, rest))
    decreases |ts|
  {
    hide SymbolBits, TokenBits, DecodeItem, ExpandToken;
    var tail := SymbolBits(256) + rest;
    if ts == [] {
      assert TokensBits(ts) + tail == tail;
      DecodeEndOfBlock(rest);
    } else {
      var t := ts[0];
      var more := TokensBits(ts[1..]) + tail;
      assert t in ts;
      assert TokensBits(ts) + tail == TokenBits(t) + more;
      DecodeItemOfToken(t, more);
      InflateFixedStep(TokenBits(t) + more, out, t, more);
      InflateFixedOfTokens(ts[1..], ExpandToken(out, t).value, rest);
    }
  }

  lemma {:induction false} ReadBytesOfBits(bs: seq<byte>, rest: seq<bool>)
    ensures ReadBytes(BitsOfBytes(bs) + rest, |bs|) == bs
  {
    if bs != [] {
      BitsOfBytesTake(bs, rest);
      assert Pow2(8) == 256;
      FromLSBOfLSB(bs[0], 8);
      ReadBytesOfBits(bs[1..], rest);
    }
  }
}
