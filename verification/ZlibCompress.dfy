/**
 * stbi_zlib_compress: header, one fixed-Huffman block or a chain of stored blocks, Adler-32 trailer;
 * and the decoder of RFC 1950 it is measured against.
 */
module ZlibCompress {
  import opened Bits
  import opened FixedCode
  import opened Inflate
  import opened MatchFinder
  import opened Adler32

  const HEADER: seq<byte> := [0x78, 0x5e]

  // ----- the specification of the output

  ghost function AllTokens(data: seq<byte>, quality: int): (r: seq<Token>)
    ensures ValidTokens(r)
  {
    Tokens(data, Effort(quality), EmptyTable(), 0)
  }

  function Effort(quality: int): nat {
    if quality < 5 then 5 else quality
  }

  /** BFINAL = 1 and BTYPE = 01, the tokens, the end-of-block symbol. */
  ghost function FixedBlock(data: seq<byte>, quality: int): seq<bool> {
    ([true] + [true, false]) + (TokensBits(AllTokens(data, quality)) + SymbolBits(256))
  }

  function StoredHeader(last: bool, len: nat): (r: seq<byte>)
    requires len <= 32767
    ensures |r| == 5
  {
    [if last then 1 else 0, len % 256, len / 256, 255 - len % 256, 255 - len / 256]
  }

  /** Blocks of at most 32767 bytes; BFINAL marks the one that ends the data. */
  function StoredBlocks(data: seq<byte>): seq<byte> {
    if data == [] then []
    else
      var len := if |data| > 32767 then 32767 else |data|;
      StoredHeader(len == |data|, len) + data[..len] + StoredBlocks(data[len..])
  }

  /** The largest output, before the trailer, that is not replaced by stored blocks. */
  function StoredLimit(n: nat): nat {
    n + 2 + (n + 32766) / 32767 * 5
  }

  ghost function Body(data: seq<byte>, quality: int): seq<byte> {
    var fixedBytes := Pack(FixedBlock(data, quality));
    if 2 + |fixedBytes| > StoredLimit(|data|) then StoredBlocks(data) else fixedBytes
  }

  ghost function Compressed(data: seq<byte>, quality: int): seq<byte> {
    HEADER + Body(data, quality) + Trailer(data)
  }

  // ----- the decoder

  /** Method 8 with a window of at most 32K, a checksum that is a multiple of 31, no preset dictionary. */
  predicate ValidHeader(cmf: nat, flg: nat) {
    cmf % 16 == 8 && cmf / 16 <= 7 && (cmf * 256 + flg) % 31 == 0 && flg / 32 % 2 == 0
  }

  /** Section 2.2 of RFC 1950: CMF and FLG, the compressed data, ADLER32, and nothing after. */
  function Decompress(bs: seq<byte>): Option<seq<byte>> {
    if |bs| < 2 || !ValidHeader(bs[0], bs[1]) then None
    else
      match InflateBlocks(BitsOfBytes(bs[2..]), [])
      case None => None
      case Some((out, rest)) =>
        if Align(rest) == BitsOfBytes(Trailer(out)) then Some(out) else None
  }

  // ----- round trip

  lemma {:induction false} InitialTable(data: seq<byte>, quality: nat)
    ensures ValidTable(data, EmptyTable(), quality, 0)
  {
  }

  lemma FixedBlockInflates(data: seq<byte>, quality: int, rest: seq<bool>)
    ensures InflateBlocks(FixedBlock(data, quality) + rest, []) == Some((data, rest))
  {
    hide InflateFixed, TokensBits, SymbolBits, Expand, Tokens;
    var ts := AllTokens(data, quality);
    var q := Effort(quality);
    InitialTable(data, q);
    TokensExpand(data, q, EmptyTable(), 0);
    assert data[..0] == [];
    InflateFixedOfTokens(ts, [], rest);
    var bits := FixedBlock(data, quality) + rest;
    assert bits[0] && bits[1] && !bits[2];
    assert bits[3..] == TokensBits(ts) + (SymbolBits(256) + rest);
  }

  lemma StoredHeaderBits(last: bool, len: nat)
    requires len <= 32767
    ensures var h := BitsOfBytes(StoredHeader(last, len));
            && |h| == 40 && h[0] == last && !h[1] && !h[2]
            && FromLSB(h[8..24]) == len && FromLSB(h[24..40]) == 0xffff - len
  {
    var lo, hi := len % 256, len / 256;
    var s := StoredHeader(last, len);
    var first: byte := if last then 1 else 0;
    assert s == [first] + ([lo, hi] + [255 - lo, 255 - hi]);
    BitsOfBytesAppend([first], [lo, hi] + [255 - lo, 255 - hi]);
    BitsOfBytesAppend([lo, hi], [255 - lo, 255 - hi]);
    var h := BitsOfBytes(s);
    assert h[8..24] == BitsOfBytes([lo, hi]);
    assert h[24..40] == BitsOfBytes([255 - lo, 255 - hi]);
    TwoBytes(lo, hi);
    TwoBytes(255 - lo, 255 - hi);
    FirstBits(last);
    assert h[..8] == BitsOfBytes([first]);
  }

  lemma FirstBits(last: bool)
    ensures var h := BitsOfBytes([if last then 1 else 0]);
            |h| == 8 && h[0] == last && !h[1] && !h[2]
  {
  }

  lemma TwoBytes(lo: byte, hi: byte)
    ensures FromLSB(BitsOfBytes([lo, hi])) == lo + 256 * hi
  {
    assert Pow2(8) == 256;
    Pow2Add(8, 8);
    LSBConcat(lo, hi, 8, 8);
    assert BitsOfBytes([lo, hi]) == LSB(lo, 8) + LSB(hi, 8);
    FromLSBOfLSB(lo + hi * 256, 16);
  }

  /** One stored block, read from the bit after its BFINAL and BTYPE. */
  lemma StoredBlockInflates(last: bool, chunk: seq<byte>, more: seq<byte>, out: seq<byte>)
    requires |chunk| <= 32767
    ensures var bits := BitsOfBytes(StoredHeader(last, |chunk|) + chunk + more);
            && |bits| >= 3 && bits[0] == last && !bits[1] && !bits[2]
            && InflateStored(bits[3..], out) == Some((out + chunk, BitsOfBytes(more)))
  {
    hide FromLSB, ReadBytes, StoredHeader, LSB;
    var header := StoredHeader(last, |chunk|);
    BitsOfBytesAppend(header + chunk, more);
    BitsOfBytesAppend(header, chunk);
    StoredHeaderBits(last, |chunk|);
    var h, body := BitsOfBytes(header), BitsOfBytes(chunk) + BitsOfBytes(more);
    var bits := BitsOfBytes(header + chunk + more);
    assert bits == h + body;
    assert bits[3..][5..] == bits[8..];
    AlignDrops(bits[3..], 5);
    assert bits[8..][..16] == h[8..24];
    assert bits[8..][16..32] == h[24..40];
    assert bits[8..][32..] == body;
    ReadBytesOfBits(chunk, BitsOfBytes(more));
    assert body[8 * |chunk|..] == BitsOfBytes(more);
  }

  lemma {:induction false} StoredBlocksInflate(data: seq<byte>, tail: seq<byte>, out: seq<byte>)
    requires data != []
    ensures InflateBlocks(BitsOfBytes(StoredBlocks(data) + tail), out) == Some((out + data, BitsOfBytes(tail)))
    decreases |data|
  {
    hide InflateStored, InflateBlocks, StoredHeader, BitsOfBytes;
    var len := if |data| > 32767 then 32767 else |data|;
    var chunk, rest := data[..len], data[len..];
    var more := StoredBlocks(rest) + tail;
    var bytes := StoredHeader(len == |data|, len) + chunk + more;
    assert StoredBlocks(data) + tail == bytes;
    StoredBlockInflates(len == |data|, chunk, more, out);
    InflateStoredStep(BitsOfBytes(bytes), out);
    if len < |data| { hide StoredBlocks; }
    if len == |data| {
      assert chunk == data && rest == [];
      assert StoredBlocks(rest) == [] && more == tail;
    } else {
      StoredBlocksInflate(rest, tail, out + chunk);
      assert out + chunk + rest == out + data;
    }
  }

  lemma BodyInflates(data: seq<byte>, quality: int) returns (k: nat)
    requires data != []
    ensures k < 8
    ensures InflateBlocks(BitsOfBytes(Body(data, quality) + Trailer(data)), []) ==
            Some((data, Zeros(k) + BitsOfBytes(Trailer(data))))
  {
    hide InflateBlocks, FixedBlock, Pack, StoredBlocks, BitsOfBytes, Trailer;
    var trailer := Trailer(data);
    if Body(data, quality) == Pack(FixedBlock(data, quality)) {
      var bits := FixedBlock(data, quality);
      k := BitsOfPack(bits);
      BitsOfBytesAppend(Pack(bits), trailer);
      assert (bits + Zeros(k)) + BitsOfBytes(trailer) == bits + (Zeros(k) + BitsOfBytes(trailer));
      FixedBlockInflates(data, quality, Zeros(k) + BitsOfBytes(trailer));
    } else {
      k := 0;
      StoredBlocksInflate(data, trailer, []);
      assert [] + data == data;
      assert Zeros(0) + BitsOfBytes(trailer) == BitsOfBytes(trailer);
    }
  }

  /** Every non-empty input, at every quality, decompresses to itself, on both paths. */
  lemma RoundTrip(data: seq<byte>, quality: int)
    requires data != []
    ensures Decompress(Compressed(data, quality)) == Some(data)
  {
    hide Body, InflateBlocks, Trailer, BitsOfBytes;
    var k := BodyInflates(data, quality);
    var bs := Compressed(data, quality);
    assert bs[2..] == Body(data, quality) + Trailer(data);
    assert ValidHeader(bs[0], bs[1]);
    var rest := Zeros(k) + BitsOfBytes(Trailer(data));
    assert |rest| == k + 32;
    AlignDrops(rest, k);
    assert rest[k..] == BitsOfBytes(Trailer(data));
  }

  lemma EmptyInputBody(quality: int)
    ensures Body([], quality) == []
  {
    hide SymbolBits, Pack, BitsOfBytes;
    var bits := FixedBlock([], quality);
    assert AllTokens([], quality) == [];
    assert |SymbolBits(256)| == 7 by { SymbolBitsRange(256); }
    assert |bits| == 10;
    var k := BitsOfPack(bits);
    assert 2 + |Pack(bits)| > StoredLimit(0);
  }

  /** The empty input is the one failure: its four bytes exceed the limit, and no block replaces them. */
  lemma EmptyInputFails(quality: int)
    ensures Compressed([], quality) == [0x78, 0x5e, 0, 0, 0, 1]
    ensures Decompress(Compressed([], quality)) == None
  {
    hide Body;
    EmptyInputBody(quality);
    assert Trailer([]) == [0, 0, 0, 1];
    NoBlock();
    assert Compressed([], quality)[2..] == [0, 0, 0, 1];
  }

  lemma NoBlock()
    ensures InflateBlocks(BitsOfBytes([0, 0, 0, 1]), []) == None
  {
    var rest := BitsOfBytes([0, 0, 0, 1]);
    assert !rest[0] && !rest[1] && !rest[2];
  }

  lemma RoundTripIff(data: seq<byte>, quality: int)
    ensures Decompress(Compressed(data, quality)) == Some(data) <==> data != []
  {
    hide Decompress, Compressed;
    if data == [] { EmptyInputFails(quality); } else { RoundTrip(data, quality); }
  }

  lemma {:induction false} StoredBlocksLength(data: seq<byte>)
    ensures |StoredBlocks(data)| == |data| + (|data| + 32766) / 32767 * 5
  {
    hide StoredHeader;
    if data != [] {
      var len := if |data| > 32767 then 32767 else |data|;
      StoredBlocksLength(data[len..]);
      if len == 32767 { assert (|data| + 32766) / 32767 == (|data| - 32767 + 32766) / 32767 + 1; }
    }
  }

  /** Of the two forms the shorter is written: the fixed block, or five bytes for every 32767 and the data. */
  lemma ShorterForm(data: seq<byte>, quality: int)
    ensures var (coded, stored) := (|Pack(FixedBlock(data, quality))|, |data| + (|data| + 32766) / 32767 * 5);
            |Compressed(data, quality)| == 6 + if coded <= stored then coded else stored
    ensures |Pack(FixedBlock(data, quality))| <= |data| + (|data| + 32766) / 32767 * 5 ==>
              Compressed(data, quality) == [0x78, 0x5e] + Pack(FixedBlock(data, quality)) + Trailer(data)
  {
    hide FixedBlock, StoredBlocks, Pack;
    StoredBlocksLength(data);
  }

  /** The fallback bounds the output: at most five bytes per 32767 of input and six more. */
  lemma CompressedLength(data: seq<byte>, quality: int)
    ensures |Compressed(data, quality)| <= StoredLimit(|data|) + 4
  {
    hide FixedBlock, StoredBlocks, Pack;
    StoredBlocksLength(data);
  }
}
