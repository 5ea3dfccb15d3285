/** The fixed Huffman code of DEFLATE: section 3.2.6 of RFC 1951, with codes assigned by section 3.2.2. */
module FixedCode {
  import opened Bits

  /** How many symbols of an alphabet have code length `len`. */
  function CountLength(lengths: seq<nat>, len: nat): nat {
    if lengths == [] then 0
    else CountLength(lengths[..|lengths| - 1], len) + (if lengths[|lengths| - 1] == len then 1 else 0)
  }

  /** The numerically smallest code of each length. */
  function FirstCode(lengths: seq<nat>, len: nat): nat {
    if len == 0 then 0 else 2 * (FirstCode(lengths, len - 1) + CountLength(lengths, len - 1))
  }

  /** Codes of one length are consecutive, in symbol order. */
  function CanonicalCode(lengths: seq<nat>, sym: nat): nat
    requires sym < |lengths|
  {
    FirstCode(lengths, lengths[sym]) + CountLength(lengths[..sym], lengths[sym])
  }

  /** Code lengths of the fixed literal/length alphabet. */
  function CodeLength(sym: nat): nat {
    if sym <= 143 then 8 else if sym <= 255 then 9 else if sym <= 279 then 7 else 8
  }

  function CodeLengths(n: nat): (r: seq<nat>)
    ensures |r| == n && forall sym :: 0 <= sym < n ==> r[sym] == CodeLength(sym)
  {
    seq(n, sym requires 0 <= sym => CodeLength(sym))
  }

  function FixedAlphabet(): (r: seq<nat>)
    ensures |r| == 288 && r == CodeLengths(|r|)
  {
    CodeLengths(288)
  }

  /** Huffman codes are sent most significant bit first. */
  function SymbolBits(sym: nat): seq<bool>
    requires sym < 288
  {
    MSB(CanonicalCode(FixedAlphabet(), sym), CodeLength(sym))
  }

  lemma {:induction false} CountLengthClosed(len: nat, n: nat)
    requires n <= 288
    ensures CountLength(CodeLengths(n), len) ==
            if len == 7 then (if n <= 256 then 0 else if n <= 280 then n - 256 else 24)
            else if len == 8 then (if n <= 144 then n else if n <= 280 then 144 else n - 136)
            else if len == 9 then (if n <= 144 then 0 else if n <= 256 then n - 144 else 112)
            else 0
  {
    if n > 0 {
      assert CodeLengths(n)[..n - 1] == CodeLengths(n - 1);
      CountLengthClosed(len, n - 1);
    }
  }

  lemma {:induction false} FirstCodeZero(lengths: seq<nat>, len: nat)
    requires lengths == FixedAlphabet() && len <= 7
    ensures FirstCode(lengths, len) == 0
  {
    if len > 0 {
      FirstCodeZero(lengths, len - 1);
      CountLengthClosed(len - 1, |lengths|);
    }
  }

  /** The four ranges of the fixed code, as constants. */
  function RangeCode(sym: nat): nat {
    if sym <= 143 then 0x30 + sym
    else if sym <= 255 then 0x190 + sym - 144
    else if sym <= 279 then sym - 256
    else 0xc0 + sym - 280
  }

  lemma CanonicalCodeRanges(sym: nat)
    requires sym < 288
    ensures CanonicalCode(FixedAlphabet(), sym) == RangeCode(sym) < Pow2(CodeLength(sym))
  {
    var lengths := FixedAlphabet();
    FirstCodeZero(lengths, 7);
    CountLengthClosed(7, |lengths|);
    CountLengthClosed(8, |lengths|);
    assert lengths[..sym] == CodeLengths(sym);
    CountLengthClosed(CodeLength(sym), sym);
    assert FirstCode(lengths, 8) == 48;
    assert FirstCode(lengths, 9) == 400;
    assert Pow2(7) == 128 && Pow2(8) == 256 && Pow2(9) == 512;
  }

  lemma SymbolBitsRange(sym: nat)
    requires sym < 288
    ensures SymbolBits(sym) == MSB(RangeCode(sym), CodeLength(sym))
  {
    CanonicalCodeRanges(sym);
  }

  /** Reads one symbol: 7, 8 or 9 bits, by the value of the leading bits. */
  function DecodeSymbol(bits: seq<bool>): (r: Option<(nat, seq<bool>)>)
    ensures r.Some? ==> r.value.0 < 288 && |r.value.1| < |bits|
  {
    if |bits| < 7 then None
    else
      var v7 := FromMSB(bits[..7]);
      if v7 <= 0x17 then Some((256 + v7, bits[7..]))
      else if |bits| < 8 then None
      else
        var v8 := FromMSB(bits[..8]);
        if 0x30 <= v8 <= 0xbf then Some((v8 - 0x30, bits[8..]))
        else if 0xc0 <= v8 <= 0xc7 then Some((280 + v8 - 0xc0, bits[8..]))
        else if |bits| < 9 then None
        else
          var v9 := FromMSB(bits[..9]);
          assert Pow2(9) == 512;
          if 0x190 <= v9 then Some((144 + v9 - 0x190, bits[9..])) else None
  }

  /** No symbol's code is a prefix of another's: the leading symbol is always recovered. */
  lemma DecodeSymbolOfBits(sym: nat, rest: seq<bool>)
    requires sym < 288
    ensures DecodeSymbol(SymbolBits(sym) + rest) == Some((sym, rest))
  {
    CanonicalCodeRanges(sym);
    assert Pow2(9) == 512;
    DecodeCode(RangeCode(sym), CodeLength(sym), rest);
  }

  /** What the decoder makes of a code word of each length. */
  lemma DecodeCode(c: nat, n: nat, rest: seq<bool>)
    requires (n == 7 && c <= 0x17) || (n == 8 && 0x30 <= c <= 0xc7) || (n == 9 && 0x190 <= c < 512)
    ensures DecodeSymbol(MSB(c, n) + rest) == Some((SymbolOfCode(c, n), rest))
  {
    var bits := MSB(c, n) + rest;
    assert c < Pow2(n) by { assert Pow2(7) == 128 && Pow2(8) == 256 && Pow2(9) == 512; }
    LeadingValue(c, rest, 7, n - 7);
    if n >= 8 { LeadingValue(c, rest, 8, n - 8); }
    if n == 9 { LeadingValue(c, rest, 9, 0); }
    assert bits[n..] == rest;
    DecodeByValue(bits, c, n);
  }

  function SymbolOfCode(c: nat, n: nat): nat
    requires (n == 7 && c <= 0x17) || (n == 8 && 0x30 <= c <= 0xc7) || (n == 9 && 0x190 <= c < 512)
  {
    if n == 7 then 256 + c
    else if n == 9 then 144 + c - 0x190
    else if c <= 0xbf then c - 0x30 else 280 + c - 0xc0
  }

  lemma DecodeByValue(bits: seq<bool>, c: nat, n: nat)
    requires (n == 7 && c <= 0x17) || (n == 8 && 0x30 <= c <= 0xc7) || (n == 9 && 0x190 <= c < 512)
    requires |bits| >= n
    requires FromMSB(bits[..7]) == if n == 7 then c else if n == 8 then c / 2 else c / 4
    requires n >= 8 ==> FromMSB(bits[..8]) == if n == 8 then c else c / 2
    requires n == 9 ==> FromMSB(bits[..9]) == c
    ensures DecodeSymbol(bits) == Some((SymbolOfCode(c, n), bits[n..]))
  {
  }

  lemma LeadingValue(c: nat, rest: seq<bool>, n: nat, k: nat)
    requires c < Pow2(n + k) && k <= 2
    ensures |MSB(c, n + k) + rest| >= n
    ensures FromMSB((MSB(c, n + k) + rest)[..n]) == (if k == 0 then c else if k == 1 then c / 2 else c / 4)
  {
    assert Pow2(0) == 1 && Pow2(1) == 2 && Pow2(2) == 4;
    MSBPrefix(c, n, k);
    assert (MSB(c, n + k) + rest)[..n] == MSB(c, n + k)[..n];
    FromMSBOfMSB(c / Pow2(k), n);
  }

  /** The decoder reads nothing but code words. */
  lemma DecodeSymbolReadsCodeWord(bits: seq<bool>)
    requires DecodeSymbol(bits).Some?
    ensures bits == SymbolBits(DecodeSymbol(bits).value.0) + DecodeSymbol(bits).value.1
  {
    var (sym, rest) := DecodeSymbol(bits).value;
    CanonicalCodeRanges(sym);
    var n := CodeLength(sym);
    LeadingBits(bits, 7);
    LeadingBits(bits, 8);
    DecodedValue(bits);
    MSBOfFromMSB(bits[..n]);
    assert bits == bits[..n] + rest;
  }

  lemma DecodedValue(bits: seq<bool>)
    requires DecodeSymbol(bits).Some?
    requires |bits| > 7 ==> FromMSB(bits[..7]) == FromMSB(bits[..8]) / 2
    requires |bits| > 8 ==> FromMSB(bits[..8]) == FromMSB(bits[..9]) / 2
    ensures var (sym, rest) := DecodeSymbol(bits).value;
            var n := CodeLength(sym);
            |bits| >= n && rest == bits[n..] &&
            FromMSB(bits[..n]) == RangeCode(sym)
  {
  }

  lemma LeadingBits(bits: seq<bool>, n: nat)
    ensures |bits| > n ==> FromMSB(bits[..n]) == FromMSB(bits[..n + 1]) / 2
  {
    if |bits| > n {
      assert bits[..n + 1][..n] == bits[..n];
    }
  }
}
