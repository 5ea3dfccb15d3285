/** The LSB-first bit buffer behind the compressor's output, and the Huffman macros that feed it. */
module BitWriter {
  import opened Bits
  import opened FixedCode

  /** Reverses the low `codebits` bits of `code`. */
  method BitRev(code: nat, codebits: nat) returns (res: nat)
    ensures res < Pow2(codebits)
    ensures LSB(res, codebits) == MSB(code, codebits)
  {
    res := 0;
    var c: nat, n: nat := code, codebits;
    while n > 0
      invariant n <= codebits && res < Pow2(codebits - n)
      invariant MSB(code, codebits) == MSB(c, n) + LSB(res, codebits - n)
    {
      BitRevStep(c, n, res, codebits - n);
      res := 2 * res + c % 2;   // (res << 1) | (code & 1)
      c, n := c / 2, n - 1;
    }
  }

  lemma BitRevStep(c: nat, n: nat, res: nat, k: nat)
    requires n > 0
    ensures MSB(c, n) + LSB(res, k) == MSB(c / 2, n - 1) + LSB(2 * res + c % 2, k + 1)
  {
    var b := c % 2;
    assert (2 * res + b) / 2 == res && (2 * res + b) % 2 == b;
    assert LSB(2 * res + b, k + 1) == [b == 1] + LSB(res, k);
  }

  class Writer {
    var out: seq<byte>
    var bitbuf: nat
    var bitcount: nat

    /** Between calls fewer than 8 bits are pending, and no stray bit lies above them. */
    ghost predicate Valid()
      reads this
    {
      bitcount < 8 && bitbuf < Pow2(bitcount)
    }

    /** Everything written so far, whether or not it has reached `out`. */
    ghost function Stream(): seq<bool>
      reads this
    {
      BitsOfBytes(out) + LSB(bitbuf, bitcount)
    }

    constructor (header: seq<byte>)
      ensures Valid() && out == header && bitcount == 0
      ensures Stream() == BitsOfBytes(header)
    {
      out, bitbuf, bitcount := header, 0, 0;
    }

    /** stbiw__zlib_flushf: moves whole bytes from the buffer to `out`. */
    method Flush()
      requires bitcount < 32 && bitbuf < Pow2(bitcount)
      modifies this
      ensures Valid() && Stream() == old(Stream())
      ensures old(out) <= out
    {
      while bitcount >= 8
        invariant bitbuf < Pow2(bitcount)
        invariant Stream() == old(Stream())
        invariant old(out) <= out
      {
        FlushByte(out, bitbuf, bitcount - 8);
        out := out + [bitbuf % 256];
        bitbuf := bitbuf / 256;
        bitcount := bitcount - 8;
      }
    }

    /** stbiw__zlib_add: appends the low `codebits` bits of `code`, least significant first. */
    method Add(code: nat, codebits: nat)
      requires Valid() && codebits <= 24 && code < Pow2(codebits)
      modifies this
      ensures Valid() && Stream() == old(Stream()) + LSB(code, codebits)
      ensures old(out) <= out
    {
      ShiftedIn(out, bitbuf, code, bitcount, codebits);
      bitbuf, bitcount := ShiftIn(bitbuf, code, bitcount), bitcount + codebits;
      Flush();
    }

    /** stbiw__zlib_huffa: a Huffman code goes out most significant bit first. */
    method HuffA(code: nat, codebits: nat)
      requires Valid() && codebits <= 24
      modifies this
      ensures Valid() && Stream() == old(Stream()) + MSB(code, codebits)
      ensures old(out) <= out
    {
      var reversed := BitRev(code, codebits);
      Add(reversed, codebits);
    }

    /** stbiw__zlib_huff: one symbol of the literal/length alphabet. */
    method Huff(n: nat)
      requires Valid() && n < 288
      modifies this
      ensures Valid() && Stream() == old(Stream()) + SymbolBits(n)
      ensures old(out) <= out
    {
      hide *;
      HuffRanges(n);
      if n <= 143 {
        HuffA(0x30 + n, 8);
      } else if n <= 255 {
        HuffA(0x190 + n - 144, 9);
      } else if n <= 279 {
        HuffA(0 + n - 256, 7);
      } else {
        HuffA(0xc0 + n - 280, 8);
      }
    }

    /** stbiw__zlib_huffb: a literal byte. */
    method HuffB(n: nat)
      requires Valid() && n < 256
      modifies this
      ensures Valid() && Stream() == old(Stream()) + SymbolBits(n)
      ensures old(out) <= out
    {
      SymbolBitsRange(n);
      if n <= 143 {
        HuffA(0x30 + n, 8);
      } else {
        HuffA(0x190 + n - 144, 9);
      }
    }

    /** Pads with zero bits to the next byte boundary. */
    method Pad()
      requires Valid()
      modifies this
      ensures Valid() && bitcount == 0
      ensures Stream() == old(Stream()) + Zeros(if old(bitcount) == 0 then 0 else 8 - old(bitcount))
      ensures old(out) <= out
    {
      ghost var padding: nat := if bitcount == 0 then 0 else 8 - bitcount;
      ghost var k: nat := 0;
      assert Stream() == old(Stream()) + Zeros(0);
      assert |Stream()| == 8 * |out| + bitcount;
      while bitcount != 0
        invariant Valid() && k <= padding
        invariant 8 * |out| + bitcount == 8 * |old(out)| + old(bitcount) + k
        invariant Stream() == old(Stream()) + Zeros(k)
        invariant old(out) <= out
        decreases padding - k
      {
        Add(0, 1);
        assert LSB(0, 1) == [false];
        assert Zeros(k) + [false] == Zeros(k + 1);
        assert (old(Stream()) + Zeros(k)) + [false] == old(Stream()) + (Zeros(k) + [false]);
        assert |Stream()| == 8 * |out| + bitcount;
        k := k + 1;
      }
    }
  }

  /** The low byte goes out first; what remains is the buffer shifted right by eight. */
  lemma SplitByte(x: nat, c: nat)
    requires x < Pow2(c + 8)
    ensures x / 256 < Pow2(c)
    ensures LSB(x, c + 8) == LSB(x % 256, 8) + LSB(x / 256, c)
  {
    var low, high := x % 256, x / 256;
    assert x == low + high * 256;
    Pow2Of8();
    Pow2Add(c, 8);
    LSBConcat(low, high, 8, c);
  }

  lemma Pow2Of8()
    ensures Pow2(8) == 256
  {
  }

  lemma HuffRanges(n: nat)
    requires n < 288
    ensures n <= 143 ==> SymbolBits(n) == MSB(0x30 + n, 8)
    ensures 144 <= n <= 255 ==> SymbolBits(n) == MSB(0x190 + n - 144, 9)
    ensures 256 <= n <= 279 ==> SymbolBits(n) == MSB(0 + n - 256, 7)
    ensures 280 <= n ==> SymbolBits(n) == MSB(0xc0 + n - 280, 8)
  {
    SymbolBitsRange(n);
    hide SymbolBits, MSB;
  }

  lemma FlushByte(out: seq<byte>, x: nat, c: nat)
    requires x < Pow2(c + 8)
    ensures x / 256 < Pow2(c)
    ensures BitsOfBytes(out) + LSB(x, c + 8) == BitsOfBytes(out + [x % 256]) + LSB(x / 256, c)
  {
    hide *;
    SplitByte(x, c);
    BitsOfBytesAppend(out, [x % 256]);
    BitsOfByte(x % 256);
    JoinBits(BitsOfBytes(out), LSB(x % 256, 8), LSB(x / 256, c));
  }

  lemma BitsOfByte(b: byte)
    ensures BitsOfBytes([b]) == LSB(b, 8)
  {
    hide LSB;
    assert LSB(b, 8) + [] == LSB(b, 8);
  }

  lemma JoinBits(a: seq<bool>, b: seq<bool>, c: seq<bool>)
    ensures (a + b) + c == a + (b + c)
  {
  }

  /** bitbuf |= code << bitcount */
  function ShiftIn(buf: nat, code: nat, count: nat): nat {
    Or(buf, code * Pow2(count))
  }

  lemma ShiftedIn(out: seq<byte>, buf: nat, code: nat, count: nat, codebits: nat)
    requires count < 8 && codebits <= 24 && buf < Pow2(count) && code < Pow2(codebits)
    ensures ShiftIn(buf, code, count) < Pow2(count + codebits) < 0x1_0000_0000
    ensures BitsOfBytes(out) + LSB(ShiftIn(buf, code, count), count + codebits) ==
            BitsOfBytes(out) + LSB(buf, count) + LSB(code, codebits)
  {
    OrDisjoint(buf, code, count);
    LSBConcat(buf, code, count, codebits);
    ShiftedFits(buf, code, count, codebits);
  }

  lemma Pow2Of31()
    ensures Pow2(31) == 0x8000_0000
  {
    assert Pow2(10) == 1024;
    Pow2Add(10, 10);
    Pow2Add(20, 10);
    assert Pow2(31) == 2 * Pow2(30);
  }

  /** With fewer than 8 pending bits a code of at most 24 bits fits the 32-bit buffer. */
  lemma ShiftedFits(buf: nat, code: nat, count: nat, codebits: nat)
    requires count < 8 && codebits <= 24 && buf < Pow2(count) && code < Pow2(codebits)
    ensures buf + code * Pow2(count) < Pow2(count + codebits) <= Pow2(31) == 0x8000_0000
  {
    Pow2Of31();
    Pow2Add(count, codebits);
    Pow2Monotone(count + codebits, 31);
    PackedBelow(buf, code, Pow2(count), Pow2(codebits));
  }

  lemma PackedBelow(low: nat, high: nat, p: nat, q: nat)
    requires low < p && high < q
    ensures low + high * p < p * q
  {
    MulMono(high + 1, q, p);
    assert (high + 1) * p == high * p + p;
  }
}
