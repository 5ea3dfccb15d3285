/**
 * JPEG entropy coding of quantised blocks, and its decoder: sections F.1.2 and F.2.2 of ITU-T T.81.
 * A block is 64 coefficients in zigzag order, the DC coefficient first.
 */
module JpegEntropy {
  import opened Bits
  import opened JpegTables

  // ----- Huffman codes

  function SymbolCode(t: Table, s: nat): seq<bool> {
    MSB(HuffmanCode(t, s).bits, HuffmanCode(t, s).len)
  }

  /** DECODE (figure F.16), from length `n` on: the first length whose codes reach the bits read gives the symbol. */
  function DecodeFrom(h: Huffman, bits: seq<bool>, n: nat): (r: Option<(nat, seq<bool>)>)
    requires 1 <= n <= 16
    ensures r.Some? ==> |r.value.1| < |bits|
    decreases 16 - n
  {
    if |bits| < n then None
    else
      var code := FromMSB(bits[..n]);
      if h.MinCode(n) <= code < h.MinCode(n) + h.CountOf(n) then
        var i := h.ValPtr(n) + (code - h.MinCode(n));
        if i < |h.values| then Some((h.values[i], bits[n..])) else None
      else if n == 16 then None
      else DecodeFrom(h, bits, n + 1)
  }

  function DecodeSymbol(h: Huffman, bits: seq<bool>): (r: Option<(nat, seq<bool>)>)
    ensures r.Some? ==> |r.value.1| < |bits|
  {
    DecodeFrom(h, bits, 1)
  }

  lemma MinCodeStep(h: Huffman, n: nat)
    requires n >= 1
    ensures h.MinCode(n + 1) == 2 * (h.MinCode(n) + h.CountOf(n))
  {
    hide Huffman.CountOf;
  }

  /** Every longer code's leading bits lie above all codes of length `n`. */
  lemma {:induction false} LongerCodesAbove(h: Huffman, n: nat, k: nat)
    requires 1 <= n && k > 0
    ensures h.MinCode(n + k) >= (h.MinCode(n) + h.CountOf(n)) * Pow2(k)
  {
    hide Huffman.CountOf, Huffman.MinCode;
    var m := h.MinCode(n) + h.CountOf(n);
    MinCodeStep(h, n + k - 1);
    if k > 1 {
      LongerCodesAbove(h, n, k - 1);
      DoubledProduct(m, k);
    }
  }

  lemma DoubledProduct(m: nat, k: nat)
    requires k > 0
    ensures m * Pow2(k) == 2 * (m * Pow2(k - 1))
  {
    var p := Pow2(k - 1);
    assert m * (2 * p) == 2 * (m * p);
  }

  lemma LeadingBits(code: nat, n: nat, k: nat, rest: seq<bool>)
    requires code < Pow2(n + k)
    ensures FromMSB((MSB(code, n + k) + rest)[..n]) == code / Pow2(k)
  {
    hide MSB, FromMSB, Pow2;
    MSBPrefix(code, n, k);
    assert (MSB(code, n + k) + rest)[..n] == MSB(code, n + k)[..n];
    QuotientBelow(code, Pow2(n), Pow2(k), n, k);
    FromMSBOfMSB(code / Pow2(k), n);
  }

  lemma QuotientBelow(x: nat, a: nat, b: nat, n: nat, k: nat)
    requires a == Pow2(n) && b == Pow2(k) && x < Pow2(n + k)
    ensures x / b < a
  {
    Pow2Add(n, k);
    var q, r := x / b, x % b;
    assert x == q * b + r;
    if q >= a { MulMono(a, q, b); }
  }

  lemma QuotientAtLeast(x: nat, m: nat, b: nat)
    requires b > 0 && x >= m * b
    ensures x / b >= m
  {
    var q, r := x / b, x % b;
    assert x == q * b + r && (q + 1) * b == q * b + b;
    if q < m { MulMono(q + 1, m, b); }
  }

  /** A code is found at its own length and no sooner. */
  lemma {:induction false} DecodeReaches(h: Huffman, code: nat, len: nat, n: nat, rest: seq<bool>)
    requires 1 <= n <= len <= 16 && code < Pow2(len)
    requires h.MinCode(len) <= code < h.MinCode(len) + h.CountOf(len)
    requires h.ValPtr(len) + (code - h.MinCode(len)) < |h.values|
    ensures DecodeFrom(h, MSB(code, len) + rest, n) ==
            Some((h.values[h.ValPtr(len) + (code - h.MinCode(len))] as nat, rest))
    decreases len - n
  {
    hide Huffman.CountOf, Huffman.MinCode, Huffman.ValPtr, MSB, FromMSB, Pow2;
    var bits := MSB(code, len) + rest;
    if n == len {
      assert bits[..n] == MSB(code, len) && bits[n..] == rest;
      FromMSBOfMSB(code, len);
    } else {
      var k := len - n;
      LongerCodesAbove(h, n, k);
      LeadingBits(code, n, k, rest);
      QuotientAtLeast(code, h.MinCode(n) + h.CountOf(n), Pow2(k));
      DecodeReaches(h, code, len, n + 1, rest);
    }
  }

  /** Codes of a length fit that length: the largest is all ones at most. */
  lemma CodeFits(t: Table, s: nat)
    requires Assigned(t, s)
    ensures HuffmanCode(t, s).bits < Pow2(HuffmanCode(t, s).len)
  {
    hide HuffmanCode, Value, Start;
    var c := HuffmanCode(t, s);
    LastCodeFits(t, c.len);
  }

  lemma LastCodeFits(t: Table, len: nat)
    requires 1 <= len <= 16
    ensures First(t, len) + Count(t, len) <= Pow2(len)
  {
    Pow2Table(len);
    hide Pow2;
    if t.LuminanceAC? { LastLuminanceFits(len); } else if t.ChrominanceAC? { LastChrominanceFits(len); }
  }

  lemma LastLuminanceFits(len: nat)
    requires 1 <= len <= 16
    ensures First(LuminanceAC, len) + Count(LuminanceAC, len) <= PowerOf2(len)
  {
  }

  lemma LastChrominanceFits(len: nat)
    requires 1 <= len <= 16
    ensures First(ChrominanceAC, len) + Count(ChrominanceAC, len) <= PowerOf2(len)
  {
  }

  function PowerOf2(len: nat): nat {
    match len
    case 1 => 2 case 2 => 4 case 3 => 8 case 4 => 16 case 5 => 32 case 6 => 64 case 7 => 128 case 8 => 256
    case 9 => 512 case 10 => 1024 case 11 => 2048 case 12 => 4096 case 13 => 8192 case 14 => 16384
    case 15 => 32768 case _ => 65536
  }

  lemma {:induction false} Pow2Table(len: nat)
    requires 1 <= len <= 16
    ensures Pow2(len) == PowerOf2(len)
  {
    if len > 1 { Pow2Table(len - 1); }
  }

  /** The symbol is where the counts and values sent put it. */
  lemma SentSymbol(t: Table, s: nat)
    requires Assigned(t, s) && s < 256
    ensures var (h, c) := (Sent(t), HuffmanCode(t, s));
            && 1 <= c.len <= 16 && c.bits < Pow2(c.len)
            && h.MinCode(c.len) <= c.bits < h.MinCode(c.len) + h.CountOf(c.len)
            && h.ValPtr(c.len) + (c.bits - h.MinCode(c.len)) < |h.values|
            && h.values[h.ValPtr(c.len) + (c.bits - h.MinCode(c.len))] == s
  {
    hide Count, Value, Huffman.MinCode, Huffman.ValPtr, Huffman.CountOf, First, Start, HuffmanCode, Size;
    var c := HuffmanCode(t, s);
    CodeFits(t, s);
    FirstIsMinCode(t, c.len);
    SentCount(t, c.len);
    ValuesInside(t, c.len);
  }

  /** What the writer sends is decoded from the DHT counts and values alone. */
  lemma DecodeSymbolOfCode(t: Table, s: nat, rest: seq<bool>)
    requires Assigned(t, s) && s < 256
    ensures DecodeSymbol(Sent(t), SymbolCode(t, s) + rest) == Some((s, rest))
  {
    hide Sent, Huffman.CountOf, Huffman.MinCode, Huffman.ValPtr, HuffmanCode, Assigned, DecodeFrom, MSB;
    var c := HuffmanCode(t, s);
    SentSymbol(t, s);
    DecodeReaches(Sent(t), c.bits, c.len, 1, rest);
  }

  // ----- signed values: category and additional bits (section F.1.2.1), EXTEND (figure F.12)

  function BitLength(x: nat): nat {
    if x == 0 then 0 else 1 + BitLength(x / 2)
  }

  lemma {:induction false} BitLengthBounds(x: nat)
    ensures x < Pow2(BitLength(x))
    ensures x > 0 ==> Pow2(BitLength(x) - 1) <= x
  {
    if x > 0 { BitLengthBounds(x / 2); }
  }

  lemma {:induction false} BitLengthAtMost(x: nat, n: nat)
    requires x < Pow2(n)
    ensures BitLength(x) <= n
  {
    if x > 0 { BitLengthAtMost(x / 2, n - 1); }
  }

  function Category(v: int): nat {
    BitLength(Abs(v))
  }

  /** The low `Category(v)` bits of v, or of v - 1 when v is negative. */
  function Magnitude(v: int): nat {
    BitLengthBounds(Abs(v));
    if v >= 0 then v else v + Pow2(Category(v)) - 1
  }

  function ValueBits(v: int): seq<bool> {
    MSB(Magnitude(v), Category(v))
  }

  function Extend(m: nat, n: nat): int {
    if n == 0 then 0 else if m < Pow2(n - 1) then m - Pow2(n) + 1 else m
  }

  lemma ExtendMagnitude(v: int)
    ensures Magnitude(v) < Pow2(Category(v)) && Extend(Magnitude(v), Category(v)) == v
  {
    BitLengthBounds(Abs(v));
  }

  function Receive(bits: seq<bool>, n: nat): (r: Option<(int, seq<bool>)>)
    ensures r.Some? ==> |r.value.1| == |bits| - n
  {
    if |bits| < n then None else Some((Extend(FromMSB(bits[..n]), n), bits[n..]))
  }

  lemma ReceiveOfValue(v: int, rest: seq<bool>)
    ensures Receive(ValueBits(v) + rest, Category(v)) == Some((v, rest))
  {
    hide Magnitude, Category, MSB, FromMSB, Extend;
    ExtendMagnitude(v);
    FromMSBOfMSB(Magnitude(v), Category(v));
    var bits, n := ValueBits(v) + rest, Category(v);
    assert bits[..n] == ValueBits(v) && bits[n..] == rest;
  }

  // ----- AC coefficients (sections F.1.2.2 and F.2.2.2)

  /** The first position from `i` on with a coefficient other than zero, or 64. */
  function NextNonzero(du: seq<int>, i: nat): (j: nat)
    requires |du| == 64 && i <= 64
    ensures i <= j <= 64 && (forall k :: i <= k < j ==> du[k] == 0) && (j < 64 ==> du[j] != 0)
    decreases 64 - i
  {
    if i == 64 || du[i] != 0 then i else NextNonzero(du, i + 1)
  }

  function RunsOfSixteen(t: Table, n: nat): seq<bool> {
    if n == 0 then [] else SymbolCode(t, 0xF0) + RunsOfSixteen(t, n - 1)
  }

  function AcBits(t: Table, du: seq<int>, i: nat): seq<bool>
    requires |du| == 64 && 1 <= i <= 64
    decreases 64 - i
  {
    var j := NextNonzero(du, i);
    if i == 64 then []
    else if j == 64 then SymbolCode(t, 0x00)
    else
      var run := j - i;
      RunsOfSixteen(t, run / 16) +
      (SymbolCode(t, 16 * (run % 16) + Category(du[j])) + (ValueBits(du[j]) + AcBits(t, du, j + 1)))
  }

  function ZeroRun(n: nat): (r: seq<int>)
    ensures |r| == n && forall i :: 0 <= i < n ==> r[i] == 0
  {
    seq(n, _ => 0)
  }

  /** Figure F.13; `acc` holds the coefficients decoded so far. */
  function DecodeAc(h: Huffman, bits: seq<bool>, acc: seq<int>): (r: Option<(seq<int>, seq<bool>)>)
    requires 1 <= |acc| <= 64
    ensures r.Some? ==> |r.value.0| == 64 && |r.value.1| <= |bits|
    decreases |bits|
  {
    if |acc| == 64 then Some((acc, bits))
    else match DecodeSymbol(h, bits)
      case None => None
      case Some((rs, rest)) =>
        var run, size := rs / 16, rs % 16;
        if size == 0 then
          if run == 15 then
            if |acc| + 16 <= 64 then DecodeAc(h, rest, acc + ZeroRun(16)) else None
          else Some((acc + ZeroRun(64 - |acc|), rest))
        else if |acc| + run >= 64 then None
        else match Receive(rest, size)
          case None => None
          case Some((v, rest')) => DecodeAc(h, rest', acc + ZeroRun(run) + [v])
  }

  predicate AcTable(t: Table) {
    t.LuminanceAC? || t.ChrominanceAC?
  }

  /** Baseline range: AC coefficients of category 1 to 10. */
  predicate BaselineAc(du: seq<int>) {
    |du| == 64 && forall i :: 1 <= i < 64 ==> -1023 <= du[i] <= 1023
  }

  lemma DecodeRun(t: Table, more: seq<bool>, acc: seq<int>)
    requires AcTable(t) && 1 <= |acc| && |acc| + 16 <= 63
    ensures DecodeAc(Sent(t), SymbolCode(t, 0xF0) + more, acc) == DecodeAc(Sent(t), more, acc + ZeroRun(16))
  {
    hide Sent, SymbolCode, DecodeSymbol, Receive, Assigned;
    SpecialAssigned(t);
    DecodeSymbolOfCode(t, 0xF0, more);
  }

  lemma {:induction false} DecodeRuns(t: Table, n: nat, more: seq<bool>, acc: seq<int>)
    requires AcTable(t) && 1 <= |acc| && |acc| + 16 * n <= 63
    ensures DecodeAc(Sent(t), RunsOfSixteen(t, n) + more, acc) == DecodeAc(Sent(t), more, acc + ZeroRun(16 * n))
    decreases n
  {
    hide Sent, SymbolCode, DecodeAc;
    if n == 0 {
      assert RunsOfSixteen(t, n) + more == more && acc + ZeroRun(0) == acc;
    } else {
      var tail := RunsOfSixteen(t, n - 1) + more;
      assert RunsOfSixteen(t, n) + more == SymbolCode(t, 0xF0) + tail;
      DecodeRun(t, tail, acc);
      DecodeRuns(t, n - 1, more, acc + ZeroRun(16));
      assert (acc + ZeroRun(16)) + ZeroRun(16 * (n - 1)) == acc + ZeroRun(16 * n);
    }
  }

  lemma DecodeAcStep(h: Huffman, bits: seq<bool>, acc: seq<int>, rs: nat, rest: seq<bool>, v: int, rest': seq<bool>)
    requires 1 <= |acc| && rs % 16 != 0 && |acc| + rs / 16 < 64
    requires DecodeSymbol(h, bits) == Some((rs, rest)) && Receive(rest, rs % 16) == Some((v, rest'))
    ensures DecodeAc(h, bits, acc) == DecodeAc(h, rest', acc + ZeroRun(rs / 16) + [v])
  {
    hide DecodeSymbol, Receive;
  }

  lemma DecodeCoefficient(t: Table, run: nat, v: int, more: seq<bool>, acc: seq<int>)
    requires AcTable(t) && run < 16 && v != 0 && -1023 <= v <= 1023 && 1 <= |acc| && |acc| + run < 64
    ensures DecodeAc(Sent(t), SymbolCode(t, 16 * run + Category(v)) + (ValueBits(v) + more), acc) ==
            DecodeAc(Sent(t), more, acc + ZeroRun(run) + [v])
  {
    hide Sent, SymbolCode, DecodeSymbol, Receive, Assigned, ValueBits, Category, DecodeAc;
    var n := Category(v);
    CategoryRange(v, 10);
    AcAssigned(t, run, n);
    var rest := ValueBits(v) + more;
    DecodeSymbolOfCode(t, 16 * run + n, rest);
    assert (16 * run + n) / 16 == run && (16 * run + n) % 16 == n;
    ReceiveOfValue(v, more);
    DecodeAcStep(Sent(t), SymbolCode(t, 16 * run + n) + rest, acc, 16 * run + n, rest, v, more);
  }

  lemma CategoryRange(v: int, n: nat)
    requires (n == 10 && -1023 <= v <= 1023) || (n == 11 && -2047 <= v <= 2047)
    ensures Category(v) <= n
    ensures v != 0 ==> Category(v) >= 1
  {
    Pow2Table(n);
    BitLengthAtMost(Abs(v), n);
  }

  /** From any position on, the coefficients come back. */
  lemma {:induction false} AcRoundTrip(t: Table, du: seq<int>, i: nat, rest: seq<bool>)
    requires AcTable(t) && BaselineAc(du) && 1 <= i <= 64
    ensures DecodeAc(Sent(t), AcBits(t, du, i) + rest, du[..i]) == Some((du, rest))
    decreases 64 - i
  {
    hide Sent, SymbolCode, DecodeAc, RunsOfSixteen, ValueBits, Category, AcBits;
    var j := NextNonzero(du, i);
    if j == 64 {
      AcTail(t, du, i, rest);
    } else {
      var run, v := j - i, du[j];
      var after := AcBits(t, du, j + 1) + rest;
      var coefficient := SymbolCode(t, 16 * (run % 16) + Category(v)) + (ValueBits(v) + after);
      AcBitsSplit(t, du, i, j, rest);
      DecodeRuns(t, run / 16, coefficient, du[..i]);
      var acc := du[..i] + ZeroRun(16 * (run / 16));
      DecodeCoefficient(t, run % 16, v, after, acc);
      ZeroesBefore(du, i, j);
      AcRoundTrip(t, du, j + 1, rest);
    }
  }

  lemma ZeroesBefore(du: seq<int>, i: nat, j: nat)
    requires i <= j < |du| && forall k :: i <= k < j ==> du[k] == 0
    ensures du[..i] + ZeroRun(16 * ((j - i) / 16)) + ZeroRun((j - i) % 16) + [du[j]] == du[..j + 1]
  {
  }

  lemma AcTail(t: Table, du: seq<int>, i: nat, rest: seq<bool>)
    requires AcTable(t) && |du| == 64 && 1 <= i <= 64 && NextNonzero(du, i) == 64
    ensures DecodeAc(Sent(t), AcBits(t, du, i) + rest, du[..i]) == Some((du, rest))
  {
    hide Sent, SymbolCode, DecodeAc;
    if i == 64 {
      assert AcBits(t, du, i) + rest == rest && du[..64] == du;
      AcDone(Sent(t), rest, du);
    } else {
      AcEnd(t, rest, du[..i]);
      assert du[..i] + ZeroRun(64 - i) == du;
    }
  }

  lemma AcDone(h: Huffman, rest: seq<bool>, du: seq<int>)
    requires |du| == 64
    ensures DecodeAc(h, rest, du) == Some((du, rest))
  {
  }

  lemma AcEnd(t: Table, rest: seq<bool>, acc: seq<int>)
    requires AcTable(t) && 1 <= |acc| < 64
    ensures DecodeAc(Sent(t), SymbolCode(t, 0x00) + rest, acc) == Some((acc + ZeroRun(64 - |acc|), rest))
  {
    hide Sent, SymbolCode, DecodeSymbol, Receive, Assigned;
    SpecialAssigned(t);
    DecodeSymbolOfCode(t, 0x00, rest);
  }

  lemma AcBitsSplit(t: Table, du: seq<int>, i: nat, j: nat, rest: seq<bool>)
    requires |du| == 64 && 1 <= i < 64 && j == NextNonzero(du, i) && j < 64
    ensures var run := j - i;
            AcBits(t, du, i) + rest ==
            RunsOfSixteen(t, run / 16) +
            (SymbolCode(t, 16 * (run % 16) + Category(du[j])) + (ValueBits(du[j]) + (AcBits(t, du, j + 1) + rest)))
  {
    hide SymbolCode, RunsOfSixteen, ValueBits, Category;
    var run := j - i;
    var a, b := RunsOfSixteen(t, run / 16), SymbolCode(t, 16 * (run % 16) + Category(du[j]));
    var c, d := ValueBits(du[j]), AcBits(t, du, j + 1);
    assert (a + (b + (c + d))) + rest == a + (b + (c + (d + rest)));
  }

  // ----- blocks and scans

  datatype Component = Y | U | V

  function DcTableOf(c: Component): Table {
    if c.Y? then LuminanceDC else ChrominanceDC
  }

  function AcTableOf(c: Component): Table {
    if c.Y? then LuminanceAC else ChrominanceAC
  }

  /** The DC difference, then the AC coefficients. */
  function BlockBits(c: Component, du: seq<int>, pred: int): seq<bool>
    requires |du| == 64
  {
    var diff := du[0] - pred;
    SymbolCode(DcTableOf(c), Category(diff)) + (ValueBits(diff) + AcBits(AcTableOf(c), du, 1))
  }

  predicate Baseline(du: seq<int>, pred: int) {
    BaselineAc(du) && -2047 <= du[0] - pred <= 2047
  }

  function DecodeBlock(dc: Huffman, ac: Huffman, bits: seq<bool>, pred: int): (r: Option<(seq<int>, seq<bool>)>)
    ensures r.Some? ==> |r.value.0| == 64
  {
    match DecodeSymbol(dc, bits)
    case None => None
    case Some((size, rest)) =>
      match Receive(rest, size)
      case None => None
      case Some((diff, rest')) => DecodeAc(ac, rest', [pred + diff])
  }

  /** Any 64 coefficients in the baseline range and any previous DC value: the block comes back. */
  lemma BlockRoundTrip(c: Component, du: seq<int>, pred: int, rest: seq<bool>)
    requires Baseline(du, pred)
    ensures DecodeBlock(Sent(DcTableOf(c)), Sent(AcTableOf(c)), BlockBits(c, du, pred) + rest, pred) == Some((du, rest))
  {
    hide Sent, SymbolCode, DecodeSymbol, Receive, Assigned, ValueBits, Category, AcBits, DecodeAc;
    var diff := du[0] - pred;
    var n := Category(diff);
    var ac := AcBits(AcTableOf(c), du, 1) + rest;
    CategoryRange(diff, 11);
    DcAssigned(DcTableOf(c), n);
    var a, b := SymbolCode(DcTableOf(c), n), ValueBits(diff);
    assert BlockBits(c, du, pred) + rest == a + (b + ac);
    DecodeSymbolOfCode(DcTableOf(c), n, b + ac);
    ReceiveOfValue(diff, ac);
    AcRoundTrip(AcTableOf(c), du, 1, rest);
    assert du[..1] == [pred + diff];
  }

  /** The DC predictions of the three components. */
  datatype Predictions = Predictions(y: int, u: int, v: int) {
    function Of(c: Component): int {
      match c case Y => y case U => u case V => v
    }

    function Set(c: Component, dc: int): Predictions {
      match c case Y => this.(y := dc) case U => this.(u := dc) case V => this.(v := dc)
    }
  }

  datatype Unit = Unit(comp: Component, du: seq<int>)

  predicate BaselineScan(units: seq<Unit>, p: Predictions) {
    units == [] ||
    (Baseline(units[0].du, p.Of(units[0].comp)) &&
     BaselineScan(units[1..], p.Set(units[0].comp, units[0].du[0])))
  }

  /** The units of a scan in order, each predicted from the previous unit of its component. */
  function ScanBits(units: seq<Unit>, p: Predictions): seq<bool>
    requires forall u :: u in units ==> |u.du| == 64
  {
    if units == [] then []
    else
      var u := units[0];
      assert u in units;
      BlockBits(u.comp, u.du, p.Of(u.comp)) + ScanBits(units[1..], p.Set(u.comp, u.du[0]))
  }

  /** The tables by their class and destination byte, and for each component the byte that selects its two. */
  datatype Headers = Headers(tables: map<byte, Huffman>, selectors: map<byte, byte>) {
    /** The high half selects the DC table. */
    function DcFor(id: byte): Option<Huffman> {
      if id !in selectors || selectors[id] / 16 !in tables then None else Some(tables[selectors[id] / 16])
    }

    /** The low half selects the AC table; AC tables are of class 1. */
    function AcFor(id: byte): Option<Huffman> {
      if id !in selectors || 16 + selectors[id] % 16 !in tables then None else Some(tables[16 + selectors[id] % 16])
    }
  }

  /** JFIF numbers luminance and the two chrominances in this order. */
  function Id(c: Component): byte {
    match c case Y => 1 case U => 2 case V => 3
  }

  /** A scan whose headers have been read; the components are in the order their units are interleaved. */
  function DecodeScan(h: Headers, comps: seq<Component>, bits: seq<bool>, p: Predictions)
    : Option<(seq<Unit>, seq<bool>)>
  {
    if comps == [] then Some(([], bits))
    else
      var c := comps[0];
      match (h.DcFor(Id(c)), h.AcFor(Id(c)))
      case (Some(dc), Some(ac)) => (
        match DecodeBlock(dc, ac, bits, p.Of(c))
        case None => None
        case Some((du, rest)) =>
          match DecodeScan(h, comps[1..], rest, p.Set(c, du[0]))
          case None => None
          case Some((units, end)) => Some(([Unit(c, du)] + units, end)))
      case _ => None
  }

  /** The headers name, for each component, the tables its units are coded with. */
  ghost predicate Fit(h: Headers) {
    forall c: Component :: h.DcFor(Id(c)) == Some(Sent(DcTableOf(c))) && h.AcFor(Id(c)) == Some(Sent(AcTableOf(c)))
  }

  function Components(units: seq<Unit>): seq<Component> {
    if units == [] then [] else [units[0].comp] + Components(units[1..])
  }

  lemma DecodeUnit(h: Headers, u: Unit, comps: seq<Component>, bits: seq<bool>, p: Predictions)
    requires Fit(h) && Baseline(u.du, p.Of(u.comp))
    ensures DecodeScan(h, [u.comp] + comps, BlockBits(u.comp, u.du, p.Of(u.comp)) + bits, p) ==
            match DecodeScan(h, comps, bits, p.Set(u.comp, u.du[0]))
            case None => None
            case Some((units, end)) => Some(([u] + units, end))
  {
    BlockRoundTrip(u.comp, u.du, p.Of(u.comp), bits);
    hide Sent, BlockBits, DecodeBlock, Baseline, Headers.DcFor, Headers.AcFor;
    assert ([u.comp] + comps)[1..] == comps;
  }

  /** Every block of every component, in any interleaving. */
  lemma {:induction false} ScanRoundTrip(h: Headers, units: seq<Unit>, p: Predictions, rest: seq<bool>)
    requires Fit(h) && BaselineScan(units, p) && forall u :: u in units ==> |u.du| == 64
    ensures DecodeScan(h, Components(units), ScanBits(units, p) + rest, p) == Some((units, rest))
    decreases |units|
  {
    hide BlockBits, DecodeBlock, Baseline, Fit;
    if units == [] {
      assert ScanBits(units, p) + rest == rest;
    } else {
      var u := units[0];
      var tail := ScanBits(units[1..], p.Set(u.comp, u.du[0])) + rest;
      assert ScanBits(units, p) + rest == BlockBits(u.comp, u.du, p.Of(u.comp)) + tail;
      ScanRoundTrip(h, units[1..], p.Set(u.comp, u.du[0]), rest);
      DecodeUnit(h, u, Components(units[1..]), tail, p);
      assert [u] + units[1..] == units;
    }
  }
}
