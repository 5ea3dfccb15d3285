/** The JPEG writer's bit buffer and block encoder as they run. */
module JpegWriter {
  import opened Bits
  import opened JpegTables
  import opened JpegEntropy
  import opened JpegHeader

  // ----- byte stuffing (section F.1.2.3 of ITU-T T.81)

  /** A zero byte follows every 0xFF. */
  function Stuff(raw: seq<byte>): seq<byte> {
    if raw == [] then [] else StuffByte(raw[0]) + Stuff(raw[1..])
  }

  function StuffByte(c: byte): seq<byte> {
    if c == 255 then [255, 0] else [c]
  }

  /** Drops a zero byte after each 0xFF. */
  function Destuff(bs: seq<byte>): seq<byte> {
    if bs == [] then []
    else if bs[0] == 255 && |bs| > 1 && bs[1] == 0 then [255] + Destuff(bs[2..])
    else [bs[0]] + Destuff(bs[1..])
  }

  lemma {:induction false} StuffAppend(raw: seq<byte>, c: byte)
    ensures Stuff(raw + [c]) == Stuff(raw) + StuffByte(c)
  {
    hide StuffByte;
    if raw == [] {
      assert (raw + [c])[1..] == [];
      assert StuffByte(c) + [] == [] + StuffByte(c);
    } else {
      assert (raw + [c])[1..] == raw[1..] + [c];
      StuffAppend(raw[1..], c);
      assert StuffByte(raw[0]) + (Stuff(raw[1..]) + StuffByte(c)) == Stuff(raw) + StuffByte(c);
    }
  }

  lemma {:induction false} DestuffRestores(raw: seq<byte>)
    ensures Destuff(Stuff(raw)) == raw
  {
    if raw != [] {
      DestuffRestores(raw[1..]);
      var rest := Stuff(raw[1..]);
      if raw[0] == 255 {
        assert Stuff(raw)[2..] == rest;
      } else {
        assert Stuff(raw)[1..] == rest;
      }
    }
  }

  /** No marker can appear in stuffed data. */
  lemma {:induction false} StuffedHasNoMarker(raw: seq<byte>, i: nat)
    requires i < |Stuff(raw)| && Stuff(raw)[i] == 255
    ensures i + 1 < |Stuff(raw)| && Stuff(raw)[i + 1] == 0
  {
    var n := |StuffByte(raw[0])|;
    var rest := Stuff(raw[1..]);
    assert Stuff(raw) == StuffByte(raw[0]) + rest;
    if i >= n {
      assert Stuff(raw)[i] == rest[i - n];
      StuffedHasNoMarker(raw[1..], i - n);
      assert Stuff(raw)[i + 1] == rest[i + 1 - n];
    }
  }

  // ----- most-significant-bit-first arithmetic

  function BitsOfRaw(raw: seq<byte>): seq<bool> {
    if raw == [] then [] else BitsOfRaw(raw[..|raw| - 1]) + MSB(raw[|raw| - 1], 8)
  }

  lemma BitsOfRawAppend(raw: seq<byte>, c: byte)
    ensures BitsOfRaw(raw + [c]) == BitsOfRaw(raw) + MSB(c, 8)
  {
    hide MSB;
    assert (raw + [c])[..|raw|] == raw;
  }

  lemma OrHalves(a: nat, b: nat)
    ensures Or(a, b) / 2 == Or(a / 2, b / 2)
    ensures Or(a, b) % 2 == 1 <==> a % 2 == 1 || b % 2 == 1
  {
  }

  lemma {:induction false} MSBOfOr(a: nat, b: nat, n: nat)
    ensures forall i :: 0 <= i < n ==> MSB(Or(a, b), n)[i] == (MSB(a, n)[i] || MSB(b, n)[i])
  {
    if n > 0 {
      OrHalves(a, b);
      MSBOfOr(a / 2, b / 2, n - 1);
    }
  }

  lemma {:induction false} OrBound(a: nat, b: nat, n: nat)
    requires a < Pow2(n) && b < Pow2(n)
    ensures Or(a, b) < Pow2(n)
  {
    if n > 0 { OrBound(a / 2, b / 2, n - 1); }
  }

  lemma {:induction false} MSBShifted(x: nat, n: nat, m: nat)
    ensures MSB(x * Pow2(m), n + m) == MSB(x, n) + Zeros(m)
    decreases m
  {
    if m == 0 {
      assert MSB(x, n) + Zeros(0) == MSB(x, n);
    } else {
      var y := x * Pow2(m - 1);
      assert x * Pow2(m) == 2 * y;
      MSBShifted(x, n, m - 1);
      assert MSB(2 * y, n + m) == MSB(y, n + m - 1) + [false];
      assert Zeros(m) == Zeros(m - 1) + [false];
      assert (MSB(x, n) + Zeros(m - 1)) + [false] == MSB(x, n) + (Zeros(m - 1) + [false]);
    }
  }

  lemma {:induction false} MSBSuffix(x: nat, k: nat, n: nat)
    ensures MSB(x, k + n)[k..] == MSB(x, n)
    decreases n
  {
    if n > 0 {
      MSBSuffix(x / 2, k, n - 1);
      assert MSB(x, k + n) == MSB(x / 2, k + n - 1) + [x % 2 == 1];
    }
  }

  lemma {:induction false} MSBSmall(x: nat, k: nat, n: nat)
    requires x < Pow2(n)
    ensures MSB(x, k + n) == Zeros(k) + MSB(x, n)
    decreases n
  {
    if n == 0 {
      MSBOfZero(k);
      assert Zeros(k) + [] == Zeros(k);
    } else {
      MSBSmall(x / 2, k, n - 1);
      assert (Zeros(k) + MSB(x / 2, n - 1)) + [x % 2 == 1] == Zeros(k) + (MSB(x / 2, n - 1) + [x % 2 == 1]);
    }
  }

  lemma {:induction false} MSBOfZero(k: nat)
    ensures MSB(0, k) == Zeros(k)
  {
    if k > 0 {
      MSBOfZero(k - 1);
      assert Zeros(k) == Zeros(k - 1) + [false];
    }
  }

  /** High bits do not matter. */
  lemma {:induction false} MSBOfSum(x: nat, q: nat, k: nat, n: nat)
    requires n <= k
    ensures MSB(x + q * Pow2(k), n) == MSB(x, n)
    decreases n
  {
    if n > 0 {
      var p := q * Pow2(k - 1);
      assert q * Pow2(k) == 2 * p;
      assert (x + 2 * p) / 2 == x / 2 + p && (x + 2 * p) % 2 == x % 2;
      MSBOfSum(x / 2, q, k - 1, n - 1);
    }
  }

  // ----- the buffer

  /** The top `count` of the buffer's low 24 bits. */
  function Pending(buf: nat, count: nat): seq<bool>
    requires count <= 24
  {
    MSB(buf, 24)[..count]
  }

  /** Nothing but zeros below the pending bits. */
  ghost predicate Clean(buf: nat, count: nat) {
    count <= 24 && buf < 0x1_0000_0000 && MSB(buf, 24) == Pending(buf, count) + Zeros(24 - count)
  }

  lemma Pow2Of32()
    ensures Pow2(8) == 256 && Pow2(16) == 0x1_0000 && Pow2(32) == 0x1_0000_0000
  {
    Pow2Add(8, 8);
    Pow2Add(16, 16);
  }

  /** bitBuf |= code << (24 - bitCnt), the count already advanced. */
  function OrIn(buf: nat, code: nat, count: nat): nat
    requires count <= 24
  {
    Or(buf, code * Pow2(24 - count))
  }

  lemma OrInAppends(buf: nat, count: nat, code: nat, len: nat)
    requires Clean(buf, count) && count + len <= 24 && code < Pow2(len)
    ensures Clean(OrIn(buf, code, count + len), count + len)
    ensures Pending(OrIn(buf, code, count + len), count + len) == Pending(buf, count) + MSB(code, len)
  {
    hide MSB, Or, Pow2;
    var m := 24 - (count + len);
    var shifted := code * Pow2(m);
    var next := OrIn(buf, code, count + len);
    ShiftedCodeBits(code, count, len, m);
    MSBOfOr(buf, shifted, 24);
    CodeStays24(code, len, m);
    Pow2Of32();
    OrBound(buf, shifted, 32);
    assert MSB(next, 24) == Pending(buf, count) + (MSB(code, len) + Zeros(m));
    assert MSB(next, 24)[..count + len] == Pending(buf, count) + MSB(code, len);
  }

  lemma ShiftedCodeBits(code: nat, count: nat, len: nat, m: nat)
    requires count + len + m == 24 && code < Pow2(len)
    ensures MSB(code * Pow2(m), 24) == Zeros(count) + (MSB(code, len) + Zeros(m))
  {
    hide MSB, Pow2;
    MSBShifted(code, count + len, m);
    MSBSmall(code, count, len);
    assert (Zeros(count) + MSB(code, len)) + Zeros(m) == Zeros(count) + (MSB(code, len) + Zeros(m));
  }

  lemma CodeStays24(code: nat, len: nat, m: nat)
    requires len + m <= 24 && code < Pow2(len)
    ensures code * Pow2(m) < Pow2(32)
  {
    Pow2Add(len, m);
    MulMono(code + 1, Pow2(len), Pow2(m));
    assert (code + 1) * Pow2(m) == code * Pow2(m) + Pow2(m);
    Pow2Monotone(len + m, 32);
  }

  /** (bitBuf >> 16) & 255 */
  function TopByte(buf: nat): byte {
    buf / 0x1_0000 % 256
  }

  lemma TopByteBits(buf: nat)
    ensures MSB(TopByte(buf), 8) == MSB(buf, 24)[..8]
  {
    hide MSB;
    Pow2Of32();
    MSBPrefix(buf, 8, 16);
    var y := buf / 0x1_0000;
    assert y == y % 256 + y / 256 * Pow2(8);
    MSBOfSum(y % 256, y / 256, 8, 8);
  }

  /** bitBuf <<= 8, in 32 bits */
  function ShiftOut(buf: nat): nat {
    buf * 256 % 0x1_0000_0000
  }

  lemma ShiftOutBits(buf: nat)
    ensures MSB(ShiftOut(buf), 24) == MSB(buf, 24)[8..] + Zeros(8)
  {
    hide MSB;
    Pow2Of32();
    var z := buf * 256;
    assert z == z % 0x1_0000_0000 + z / 0x1_0000_0000 * Pow2(32);
    MSBOfSum(z % 0x1_0000_0000, z / 0x1_0000_0000, 32, 24);
    MSBShifted(buf, 16, 8);
    MSBSuffix(buf, 8, 16);
  }

  lemma ByteOut(buf: nat, count: nat)
    requires Clean(buf, count) && count >= 8
    ensures Clean(ShiftOut(buf), count - 8)
    ensures Pending(buf, count) == MSB(TopByte(buf), 8) + Pending(ShiftOut(buf), count - 8)
  {
    hide MSB, ShiftOut, TopByte;
    TopByteBits(buf);
    ShiftOutBits(buf);
    assert ShiftOut(buf) < 0x1_0000_0000 by { ShiftOutFits(buf); }
    var bits := MSB(buf, 24);
    assert MSB(ShiftOut(buf), 24)[..count - 8] == bits[8..count];
    assert Zeros(24 - count) + Zeros(8) == Zeros(24 - (count - 8));
    assert bits[8..] == bits[8..count] + Zeros(24 - count);
    assert (bits[8..count] + Zeros(24 - count)) + Zeros(8) == bits[8..count] + (Zeros(24 - count) + Zeros(8));
  }

  lemma ShiftOutFits(buf: nat)
    ensures ShiftOut(buf) < 0x1_0000_0000
  {
  }

  class EntropyWriter {
    var out: seq<byte>
    var bitBuf: nat
    var bitCnt: nat
    ghost var raw: seq<byte>   // the bytes before stuffing

    ghost predicate Valid()
      reads this
    {
      bitCnt < 8 && Clean(bitBuf, bitCnt) && out == Stuff(raw)
    }

    /** Every bit written so far, sent or pending. */
    ghost function Stream(): seq<bool>
      requires bitCnt <= 24
      reads this
    {
      BitsOfRaw(raw) + Pending(bitBuf, bitCnt)
    }

    constructor ()
      ensures Valid() && Stream() == [] && out == []
    {
      out, bitBuf, bitCnt, raw := [], 0, 0, [];
      new;
      MSBOfZero(24);
    }

    /** stbiw__jpg_writeBits */
    method WriteBits(code: nat, len: nat)
      requires Valid() && len <= 16 && code < Pow2(len)
      modifies this
      ensures Valid() && Stream() == old(Stream()) + MSB(code, len)
    {
      hide MSB, Pending, Clean, OrIn, Stuff, BitsOfRaw;
      OrInAppends(bitBuf, bitCnt, code, len);
      bitCnt := bitCnt + len;
      bitBuf := OrIn(bitBuf, code, bitCnt);
      assert Stream() == old(Stream()) + MSB(code, len);
      while bitCnt >= 8
        invariant Loaded() && Stream() == old(Stream()) + MSB(code, len)
        decreases bitCnt
      {
        SendByte();
      }
    }

    /** The state while whole bytes are pending. */
    ghost predicate Loaded()
      reads this
    {
      bitCnt <= 24 && Clean(bitBuf, bitCnt) && out == Stuff(raw)
    }

    /** One round of the loop: the top byte, with a zero after 0xFF. */
    method SendByte()
      requires Loaded() && bitCnt >= 8
      modifies this
      ensures Loaded() && bitCnt == old(bitCnt) - 8 && Stream() == old(Stream())
    {
      hide MSB, Pending, Clean, ShiftOut, TopByte, Stuff, StuffByte, BitsOfRaw;
      ByteOut(bitBuf, bitCnt);
      var c := TopByte(bitBuf);
      StuffAppend(raw, c);
      BitsOfRawAppend(raw, c);
      StuffedPair(out, c);
      out := out + [c];
      if c == 255 { out := out + [0]; }
      raw := raw + [c];
      bitBuf := ShiftOut(bitBuf);
      bitCnt := bitCnt - 8;
    }

    /** Writes the code word of a symbol. */
    method WriteSymbol(t: Table, s: nat)
      requires Valid() && Assigned(t, s)
      modifies this
      ensures Valid() && Stream() == old(Stream()) + SymbolCode(t, s)
    {
      hide MSB, HuffmanCode, Count, Value, First, Start;
      CodeFits(t, s);
      var c := HuffmanCode(t, s);
      WriteBits(c.bits, c.len);
    }

    /** The entropy coding part of stbiw__jpg_processDU; returns the next DC prediction. */
    method ProcessUnit(comp: Component, du: seq<int>, dc: int) returns (next: int)
      requires Valid() && Baseline(du, dc)
      modifies this
      ensures Valid() && Stream() == old(Stream()) + BlockBits(comp, du, dc)
      ensures next == du[0]
    {
      ghost var start := Stream();
      hide *;
      BaselineParts(du, dc);
      var diff := du[0] - dc;
      var tdc, tac := DcTableOf(comp), AcTableOf(comp);
      TablesOf(comp);
      WriteDifference(tdc, diff);
      WriteAc(tac, du);
      BlockIs(comp, du, dc);
      JoinTable(start, SymbolCode(tdc, Category(diff)), ValueBits(diff), AcBits(tac, du, 1));
      return du[0];
    }

    /** The difference to the prediction: its category, and its bits unless it is zero. */
    method WriteDifference(t: Table, diff: int)
      requires Valid() && (t.LuminanceDC? || t.ChrominanceDC?) && -2047 <= diff <= 2047
      modifies this
      ensures Valid() && Stream() == (old(Stream()) + SymbolCode(t, Category(diff))) + ValueBits(diff)
    {
      hide Stream, SymbolCode, Category, Assigned, Magnitude, MSB;
      CategoryRange(diff, 11);
      DcAssigned(t, Category(diff));
      ghost var start := Stream();
      if diff == 0 {
        NoValueBits();
        WriteSymbol(t, 0);
        assert Stream() == (start + SymbolCode(t, Category(diff))) + ValueBits(diff);
      } else {
        var bits, size := CalcBits(diff);
        WriteSymbol(t, size);
        WriteBits(bits, size);
      }
    }

    /** The AC coefficients: zero runs, markers for sixteen zeros, end of block. */
    method WriteAc(t: Table, du: seq<int>)
      requires Valid() && AcTable(t) && BaselineAc(du)
      modifies this
      ensures Valid() && Stream() == old(Stream()) + AcBits(t, du, 1)
    {
      hide Stream, SymbolCode, ValueBits, Category, AcBits, Assigned;
      var end0pos: nat := 63;
      while end0pos > 0 && du[end0pos] == 0
        invariant end0pos <= 63 && forall k :: end0pos < k < 64 ==> du[k] == 0
      {
        end0pos := end0pos - 1;
      }
      SpecialAssigned(t);
      ghost var goal := Stream() + AcBits(t, du, 1);
      if end0pos == 0 {
        AcBitsEnd(t, du, 1);
        WriteSymbol(t, 0x00);
        return;
      }
      var i: nat := 1;
      while i <= end0pos
        invariant 1 <= i <= end0pos + 1 && Valid()
        invariant Stream() + AcBits(t, du, i) == goal
      {
        i := WriteCoefficient(t, du, i, end0pos, goal);
      }
      AcBitsEnd(t, du, i);
      if end0pos != 63 {
        WriteSymbol(t, 0x00);
      } else {
        assert Stream() + [] == Stream();
      }
    }

    /** One round: skip the zeros, count them in sixteens, write the coefficient after them. */
    method WriteCoefficient(t: Table, du: seq<int>, start: nat, end0pos: nat, ghost goal: seq<bool>) returns (i: nat)
      requires Valid() && AcTable(t) && BaselineAc(du) && 1 <= start <= end0pos < 64 && du[end0pos] != 0
      requires Stream() + AcBits(t, du, start) == goal
      modifies this
      ensures start < i <= end0pos + 1 && Valid()
      ensures Stream() + AcBits(t, du, i) == goal
    {
      hide Stream, SymbolCode, Category, AcBits, Assigned, RunsOfSixteen, Magnitude, MSB;
      i := start;
      while du[i] == 0 && i <= end0pos
        invariant start <= i <= end0pos && forall k :: start <= k < i ==> du[k] == 0
      {
        i := i + 1;
      }
      NextNonzeroIs(du, start, i);
      var nrzeroes := i - start;
      ghost var before, run, v := Stream(), nrzeroes, du[i];
      AcBitsSplit(t, du, start, i, []);
      if nrzeroes >= 16 {
        var lng := nrzeroes / 16;
        WriteMarkers(t, lng);
        nrzeroes := nrzeroes % 16;
      } else {
        NoRuns(t);
      }
      assert Stream() == before + RunsOfSixteen(t, run / 16) && nrzeroes == run % 16;
      var bits, size := CalcBits(du[i]);
      CategoryRange(v, 10);
      AcAssigned(t, nrzeroes, size);
      WriteSymbol(t, nrzeroes * 16 + size);
      WriteBits(bits, size);
      i := i + 1;
      JoinCoefficient(before, RunsOfSixteen(t, run / 16), SymbolCode(t, nrzeroes * 16 + size), ValueBits(v),
                      AcBits(t, du, i), AcBits(t, du, start));
    }

    /** M16zeroes, `lng` times. */
    method WriteMarkers(t: Table, lng: nat)
      requires Valid() && AcTable(t)
      modifies this
      ensures Valid() && Stream() == old(Stream()) + RunsOfSixteen(t, lng)
    {
      hide Stream, SymbolCode, Assigned;
      SpecialAssigned(t);
      ghost var start := Stream();
      assert start + RunsOfSixteen(t, 0) == start;
      for nrmarker := 0 to lng
        invariant Valid() && Stream() == start + RunsOfSixteen(t, nrmarker)
      {
        WriteSymbol(t, 0xF0);
        RunsAppend(t, nrmarker);
        assert (start + RunsOfSixteen(t, nrmarker)) + SymbolCode(t, 0xF0) == start + RunsOfSixteen(t, nrmarker + 1);
      }
    }
  }

  /** stbiw__jpg_calcBits */
  method CalcBits(val: int) returns (bits: nat, size: nat)
    requires val != 0
    ensures size == Category(val) && bits == Magnitude(val) < Pow2(size)
  {
    ExtendMagnitude(val);
    var tmp1: nat := if val < 0 then -val else val;
    var v := if val < 0 then val - 1 else val;
    size := 1;
    tmp1 := tmp1 / 2;
    while tmp1 != 0
      invariant BitLength(Abs(val)) == size + BitLength(tmp1)
    {
      tmp1 := tmp1 / 2;
      size := size + 1;
    }
    MaskIs(val, v, Pow2(size));
    bits := v % Pow2(size);   // val & ((1 << size) - 1)
  }

  lemma MaskIs(val: int, v: int, p: nat)
    requires val != 0 && Abs(val) < p && v == if val < 0 then val - 1 else val
    ensures v % p == if val >= 0 then val else val + p - 1
  {
    if val < 0 { QuotientUnique(v, p, -1, v + p); } else { QuotientUnique(v, p, 0, v); }
  }

  lemma NoValueBits()
    ensures Category(0) == 0 && ValueBits(0) == []
  {
  }

  lemma StuffedPair(out: seq<byte>, c: byte)
    ensures out + StuffByte(c) == if c == 255 then (out + [c]) + [0] else out + [c]
  {
  }

  lemma {:induction false} RunsAppend(t: Table, n: nat)
    ensures RunsOfSixteen(t, n + 1) == RunsOfSixteen(t, n) + SymbolCode(t, 0xF0)
  {
    hide SymbolCode;
    var m := SymbolCode(t, 0xF0);
    if n == 0 {
      assert m + RunsOfSixteen(t, 0) == m == RunsOfSixteen(t, 0) + m;
    } else {
      RunsAppend(t, n - 1);
      assert m + (RunsOfSixteen(t, n - 1) + m) == (m + RunsOfSixteen(t, n - 1)) + m;
    }
  }

  lemma NoRuns(t: Table)
    ensures RunsOfSixteen(t, 0) == []
  {
  }

  lemma {:induction false} NextNonzeroIs(du: seq<int>, i: nat, j: nat)
    requires |du| == 64 && i <= j < 64 && du[j] != 0 && forall k :: i <= k < j ==> du[k] == 0
    ensures NextNonzero(du, i) == j
    decreases j - i
  {
    if i < j { NextNonzeroIs(du, i + 1, j); }
  }

  /** Only zeros are left: an end-of-block code, unless nothing is. */
  lemma AcBitsEnd(t: Table, du: seq<int>, i: nat)
    requires |du| == 64 && 1 <= i <= 64 && forall k :: i <= k < 64 ==> du[k] == 0
    ensures AcBits(t, du, i) == if i == 64 then [] else SymbolCode(t, 0x00)
  {
    hide SymbolCode;
    assert NextNonzero(du, i) == 64;
  }

  lemma JoinCoefficient(s: seq<bool>, a: seq<bool>, b: seq<bool>, c: seq<bool>, d: seq<bool>, all: seq<bool>)
    requires all + [] == a + (b + (c + (d + [])))
    ensures (((s + a) + b) + c) + d == s + all
  {
    assert all + [] == all && d + [] == d;
    assert (((s + a) + b) + c) + d == s + (a + (b + (c + d)));
  }

  // ----- a whole scan

  predicate AllOnes(bits: seq<bool>) {
    forall i :: 0 <= i < |bits| ==> bits[i]
  }

  /** What a reader makes of tables, scan header and data, knowing how the units are interleaved. */
  function ReadScan(bs: seq<byte>, comps: seq<Component>): Option<(seq<Unit>, seq<bool>)> {
    match ReadHeaders(bs)
    case None => None
    case Some((h, data)) => DecodeScan(h, comps, BitsOfRaw(Destuff(data)), Predictions(0, 0, 0))
  }

  /** One table: class and destination, counts, values. */
  method WriteTable(o: seq<byte>, key: byte, t: Table) returns (out: seq<byte>)
    ensures out == o + TableBytes(key, t)
  {
    hide Sent;
    out := o + [key];
    out := out + Sent(t).counts;
    out := out + Sent(t).values;
    JoinTable(o, [key], Sent(t).counts, Sent(t).values);
  }

  lemma BaselineParts(du: seq<int>, dc: int)
    requires Baseline(du, dc)
    ensures |du| == 64 && BaselineAc(du) && -2047 <= du[0] - dc <= 2047
  {
    hide BaselineAc;
    assert BaselineAc(du);
    BaselineLength(du);
  }

  lemma BaselineLength(du: seq<int>)
    requires BaselineAc(du)
    ensures |du| == 64
  {
  }

  lemma TablesOf(c: Component)
    ensures (DcTableOf(c).LuminanceDC? || DcTableOf(c).ChrominanceDC?) && AcTable(AcTableOf(c))
  {
  }

  lemma BlockIs(c: Component, du: seq<int>, pred: int)
    requires |du| == 64
    ensures var diff := du[0] - pred;
            BlockBits(c, du, pred) ==
            SymbolCode(DcTableOf(c), Category(diff)) + (ValueBits(diff) + AcBits(AcTableOf(c), du, 1))
  {
    hide SymbolCode, Category, ValueBits, AcBits;
  }

  lemma JoinTable<T>(o: seq<T>, a: seq<T>, b: seq<T>, c: seq<T>)
    ensures ((o + a) + b) + c == o + (a + (b + c))
  {
  }

  /** Tables and scan header, as they are sent before the data. */
  method WriteHeaders() returns (out: seq<byte>)
    ensures out == HuffmanSegment() + ScanHeader()
  {
    hide TableBytes;
    out := [0xFF, 0xC4, 0x01, 0xA2];
    out := WriteTable(out, 0x00, LuminanceDC);
    out := WriteTable(out, 0x10, LuminanceAC);
    out := WriteTable(out, 0x01, ChrominanceDC);
    out := WriteTable(out, 0x11, ChrominanceAC);
    JoinTables([0xFF, 0xC4, 0x01, 0xA2], TableBytes(0x00, LuminanceDC), TableBytes(0x10, LuminanceAC),
               TableBytes(0x01, ChrominanceDC), TableBytes(0x11, ChrominanceAC));
    out := out + [0xFF, 0xDA, 0, 0xC, 3, 1, 0, 2, 0x11, 3, 0x11, 0, 0x3F, 0];
  }

  lemma JoinTables(m: seq<byte>, a: seq<byte>, b: seq<byte>, c: seq<byte>, d: seq<byte>)
    ensures (((m + a) + b) + c) + d == m + (a + (b + (c + d)))
  {
  }

  /**
   * Tables, scan header, and the bits of a scan followed by fewer than eight one bits, stuffed: a reader of these bytes
   * gets the units back, each component decoded with the tables that the header selects for it.
   */
  method WriteScan(units: seq<Unit>) returns (out: seq<byte>)
    requires BaselineScan(units, Predictions(0, 0, 0)) && forall u :: u in units ==> |u.du| == 64
    ensures exists ones :: |ones| < 8 && AllOnes(ones) && ReadScan(out, Components(units)) == Some((units, ones))
    ensures HuffmanSegment() + ScanHeader() <= out
    ensures forall i :: 434 <= i < |out| && out[i] == 255 ==> i + 1 < |out| && out[i + 1] == 0
  {
    hide *;
    var headers := WriteHeaders();
    var data := WriteData(units);
    out := headers + data;
    HeadersRead(data);
    SegmentSizes();
    assert headers + data == HuffmanSegment() + (ScanHeader() + data);
    var h := Headers(WrittenTables(), WrittenSelectors());
    ghost var ones :| |ones| < 8 && AllOnes(ones) &&
                      BitsOfRaw(Destuff(data)) == ScanBits(units, Predictions(0, 0, 0)) + ones;
    ScanRoundTrip(h, units, Predictions(0, 0, 0), ones);
    ReadScanIs(out, Components(units), h, data);
  }

  lemma SegmentSizes()
    ensures |HuffmanSegment()| == 420 && |ScanHeader()| == 14
  {
    TablesRead();
    hide AllTables;
  }

  lemma ReadScanIs(bs: seq<byte>, comps: seq<Component>, h: Headers, data: seq<byte>)
    requires ReadHeaders(bs) == Some((h, data))
    ensures ReadScan(bs, comps) == DecodeScan(h, comps, BitsOfRaw(Destuff(data)), Predictions(0, 0, 0))
  {
    hide ReadHeaders, DecodeScan, BitsOfRaw, Destuff;
  }

  /** The entropy-coded data: the bits of a scan followed by fewer than eight one bits, stuffed. */
  method WriteData(units: seq<Unit>) returns (out: seq<byte>)
    requires BaselineScan(units, Predictions(0, 0, 0)) && forall u :: u in units ==> |u.du| == 64
    ensures exists ones :: |ones| < 8 && AllOnes(ones) &&
              BitsOfRaw(Destuff(out)) == ScanBits(units, Predictions(0, 0, 0)) + ones
    ensures forall i :: 0 <= i < |out| && out[i] == 255 ==> i + 1 < |out| && out[i + 1] == 0
  {
    hide Baseline, BlockBits, Stuff, BitsOfRaw, Pending, Clean, Destuff, EntropyWriter.Stream, MSB;
    var w := new EntropyWriter();
    var p := Predictions(0, 0, 0);
    ghost var goal := ScanBits(units, p);
    var i: nat := 0;
    assert units[0..] == units;
    assert [] + goal == goal;
    while i < |units|
      invariant i <= |units| && w.Valid() && fresh(w)
      invariant forall u :: u in units[i..] ==> |u.du| == 64
      invariant BaselineScan(units[i..], p) && w.Stream() + ScanBits(units[i..], p) == goal
    {
      var u := units[i];
      ghost var before, more := w.Stream(), ScanBits(units[i + 1..], p.Set(u.comp, u.du[0]));
      assert units[i..][0] == u && units[i..][1..] == units[i + 1..];
      var dc := w.ProcessUnit(u.comp, u.du, p.Of(u.comp));
      JoinThree(before, BlockBits(u.comp, u.du, p.Of(u.comp)), more);
      p := p.Set(u.comp, dc);
      i := i + 1;
    }
    assert units[i..] == [];
    assert w.Stream() + [] == w.Stream();
    SevenOnes();
    w.WriteBits(0x7F, 7);
    out := w.out;
    FilledWithOnes(w, goal);
    DestuffRestores(w.raw);
    forall k | 0 <= k < |out| && out[k] == 255 ensures k + 1 < |out| && out[k + 1] == 0 {
      StuffedHasNoMarker(w.raw, k);
    }
  }

  lemma SevenOnes()
    ensures 0x7F < Pow2(7) && AllOnes(MSB(0x7F, 7))
  {
  }

  /** What stays in the buffer at the end is some of the fill bits. */
  lemma FilledWithOnes(w: EntropyWriter, goal: seq<bool>)
    requires w.Valid() && w.Stream() == goal + MSB(0x7F, 7)
    ensures exists ones :: |ones| < 8 && AllOnes(ones) && BitsOfRaw(w.raw) == goal + ones
  {
    hide MSB, BitsOfRaw, Clean;
    SevenOnes();
    var all := w.Stream();
    var sent := BitsOfRaw(w.raw);
    assert |all| == |sent| + w.bitCnt;
    assert sent == all[..|sent|];
    assert |goal| <= |sent|;
    var ones := MSB(0x7F, 7)[..|sent| - |goal|];
    assert all == goal + MSB(0x7F, 7);
    assert sent == goal + ones;
    assert AllOnes(ones);
  }
}
