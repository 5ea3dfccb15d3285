/**
 * The segments in front of a JPEG scan that say how it is coded: the Huffman tables (section B.2.4.2 of ITU-T T.81)
 * and the scan header with the tables of each component (section B.2.3), and a reader of them.
 */
module JpegHeader {
  import opened Bits
  import opened JpegTables
  import opened JpegEntropy

  // ----- what is written

  /** Class and destination, counts, values. */
  function TableBytes(key: byte, t: Table): seq<byte> {
    [key] + (Sent(t).counts + Sent(t).values)
  }

  /** DHT: luminance tables have destination 0, chrominance tables 1; AC tables have class 1. */
  function HuffmanSegment(): seq<byte> {
    [0xFF, 0xC4, 0x01, 0xA2] + AllTables()
  }

  function AllTables(): seq<byte> {
    TableBytes(0x00, LuminanceDC) + (TableBytes(0x10, LuminanceAC) +
    (TableBytes(0x01, ChrominanceDC) + TableBytes(0x11, ChrominanceAC)))
  }

  /** SOS: component 1 with tables 0, components 2 and 3 with tables 1. */
  function ScanHeader(): seq<byte> {
    [0xFF, 0xDA, 0x00, 0x0C, 3, 1, 0x00, 2, 0x11, 3, 0x11, 0x00, 0x3F, 0x00]
  }

  // ----- a reader

  function Pair(hi: byte, lo: byte): nat {
    256 * (hi as nat) + lo
  }

  /** The tables of a DHT segment, one after the other; the counts of a table say how many values it has. */
  function ReadTables(bs: seq<byte>, tables: map<byte, Huffman>): Option<map<byte, Huffman>> {
    if bs == [] then Some(tables)
    else if |bs| < 17 then None
    else
      var counts := bs[1..17];
      var n := Huffman(counts, []).ValPtr(17);
      if |bs| < 17 + n then None
      else ReadTables(bs[17 + n..], tables[bs[0] := Huffman(counts, bs[17..17 + n])])
  }

  /** `n` components, each with its selectors. */
  function ReadSelectors(bs: seq<byte>, n: nat): Option<map<byte, byte>> {
    if |bs| != 2 * n then None
    else if n == 0 then Some(map[])
    else
      match ReadSelectors(bs[..2 * n - 2], n - 1)
      case None => None
      case Some(m) => Some(m[bs[2 * n - 2] := bs[2 * n - 1]])
  }

  /** A sequential scan: all coefficients at full precision. */
  function ReadScanHeader(bs: seq<byte>): Option<(map<byte, byte>, seq<byte>)> {
    if |bs| < 5 || bs[0] != 0xFF || bs[1] != 0xDA then None
    else
      var n, length := bs[4] as nat, Pair(bs[2], bs[3]);
      if length != 6 + 2 * n || |bs| < 2 + length || bs[5 + 2 * n..8 + 2 * n] != [0, 63, 0] then None
      else
        match ReadSelectors(bs[5..5 + 2 * n], n)
        case None => None
        case Some(m) => Some((m, bs[2 + length..]))
  }

  /** Tables and scan header, and the entropy-coded data after them. */
  function ReadHeaders(bs: seq<byte>): Option<(Headers, seq<byte>)> {
    if |bs| < 4 || bs[0] != 0xFF || bs[1] != 0xC4 || |bs| < 2 + Pair(bs[2], bs[3]) || Pair(bs[2], bs[3]) < 2 then None
    else
      var end := 2 + Pair(bs[2], bs[3]);
      match (ReadTables(bs[4..end], map[]), ReadScanHeader(bs[end..]))
      case (Some(tables), Some((selectors, data))) => Some((Headers(tables, selectors), data))
      case _ => None
  }

  // ----- the reader finds what was written

  lemma {:induction false} SameCounts(h: Huffman, g: Huffman, len: nat)
    requires h.counts == g.counts
    ensures h.ValPtr(len) == g.ValPtr(len)
  {
    if len > 1 { SameCounts(h, g, len - 1); }
  }

  lemma ReadTable(key: byte, t: Table, rest: seq<byte>, tables: map<byte, Huffman>)
    ensures ReadTables(TableBytes(key, t) + rest, tables) == ReadTables(rest, tables[key := Sent(t)])
  {
    CountsFill(t);
    hide Sent, Huffman.ValPtr, Size;
    var h, bs := Sent(t), TableBytes(key, t) + rest;
    SameCounts(h, Huffman(h.counts, []), 17);
    assert bs[1..17] == h.counts && bs[17..17 + |h.values|] == h.values && bs[17 + |h.values|..] == rest;
    assert Huffman(h.counts, h.values) == h;
  }

  function WrittenTables(): map<byte, Huffman> {
    map[][0x00 := Sent(LuminanceDC)][0x10 := Sent(LuminanceAC)]
      [0x01 := Sent(ChrominanceDC)][0x11 := Sent(ChrominanceAC)]
  }

  lemma TablesRead()
    ensures ReadTables(AllTables(), map[]) == Some(WrittenTables()) && |AllTables()| == 416
  {
    hide Sent, ReadTables;
    var a, b := TableBytes(0x00, LuminanceDC), TableBytes(0x10, LuminanceAC);
    var c, d := TableBytes(0x01, ChrominanceDC), TableBytes(0x11, ChrominanceAC);
    var m0: map<byte, Huffman> := map[];
    var m1 := m0[0x00 := Sent(LuminanceDC)];
    var m2 := m1[0x10 := Sent(LuminanceAC)];
    var m3 := m2[0x01 := Sent(ChrominanceDC)];
    ReadTable(0x00, LuminanceDC, b + (c + d), m0);
    ReadTable(0x10, LuminanceAC, c + d, m1);
    ReadTable(0x01, ChrominanceDC, d, m2);
    ReadTable(0x11, ChrominanceAC, [], m3);
    assert d + [] == d;
    NoTables(m3[0x11 := Sent(ChrominanceAC)]);
  }

  lemma NoTables(m: map<byte, Huffman>)
    ensures ReadTables([], m) == Some(m)
  {
  }

  function WrittenSelectors(): map<byte, byte> {
    map[][1 := 0x00][2 := 0x11][3 := 0x11]
  }

  lemma SelectorsRead()
    ensures ReadSelectors([1, 0x00, 2, 0x11, 3, 0x11], 3) == Some(WrittenSelectors())
  {
    var bs: seq<byte> := [1, 0x00, 2, 0x11, 3, 0x11];
    assert bs[..4] == [1, 0x00, 2, 0x11] && bs[..4][..2] == [1, 0x00];
    assert ReadSelectors([], 0) == Some(map[]);
    assert ReadSelectors([1, 0x00], 1) == Some(map[][1 := 0x00]);
    assert ReadSelectors([1, 0x00, 2, 0x11], 2) == Some(map[][1 := 0x00][2 := 0x11]);
  }

  lemma ScanHeaderRead(data: seq<byte>)
    ensures ReadScanHeader(ScanHeader() + data) == Some((WrittenSelectors(), data))
  {
    hide ReadSelectors;
    SelectorsRead();
    var bs := ScanHeader() + data;
    assert bs[5..11] == [1, 0x00, 2, 0x11, 3, 0x11] && bs[11..14] == [0, 63, 0] && bs[14..] == data;
  }

  lemma WrittenFits()
    ensures Fit(Headers(WrittenTables(), WrittenSelectors()))
  {
    hide Sent;
  }

  /** A reader of the two segments decodes each component with the tables it was coded with. */
  lemma HeadersRead(data: seq<byte>)
    ensures ReadHeaders(HuffmanSegment() + (ScanHeader() + data)) ==
            Some((Headers(WrittenTables(), WrittenSelectors()), data))
    ensures Fit(Headers(WrittenTables(), WrittenSelectors()))
  {
    WrittenFits();
    TablesRead();
    ScanHeaderRead(data);
    hide AllTables, ScanHeader, ReadTables, ReadScanHeader, WrittenTables, WrittenSelectors, Fit;
    var bs := HuffmanSegment() + (ScanHeader() + data);
    assert bs[4..420] == AllTables() && bs[420..] == ScanHeader() + data;
  }
}
