/** stbi_write_png_to_mem: filter choice, compression and chunks; and a decoder from RFC 2083 for what it writes. */
module PngWrite {
  import opened Bits
  import opened Adler32
  import Crc32
  import opened PngFilter
  import opened ZlibCompress
  import ZlibEncoder

  // ----- filter choice

  function Signed(b: byte): int {
    if b < 128 then b else (b as int) - 256
  }

  /** The estimate that the automatic choice minimises: the sum of the absolute signed values. */
  function Estimate(line: seq<byte>): nat {
    if line == [] then 0 else Estimate(line[..|line| - 1]) + Abs(Signed(line[|line| - 1]))
  }

  function LineOf(img: Image, y: nat, filter: nat): (r: seq<byte>)
    requires img.Valid() && y < img.height
    ensures |r| == img.RowBytes()
  {
    Filter(filter, img.Row(y), img.Prior(y), img.comp)
  }

  datatype Choice = Choice(filter: nat, estimate: nat)

  /** The choice after trying the first `k` filters. */
  function Tried(img: Image, y: nat, k: nat): (c: Choice)
    requires img.Valid() && y < img.height
    ensures k <= 5 ==> c.filter < 5
  {
    if k == 0 then Choice(0, 0x7fff_ffff)
    else
      var c := Tried(img, y, k - 1);
      var est := Estimate(LineOf(img, y, k - 1));
      if est < c.estimate then Choice(k - 1, est) else c
  }

  /** A forced filter, or the best of the five; 5 and above, like negative values, mean automatic. */
  function ChosenFilter(img: Image, y: nat, force: int): (f: nat)
    requires img.Valid() && y < img.height
    ensures f < 5
  {
    if 0 <= force < 5 then force else Tried(img, y, 5).filter
  }

  lemma {:induction false} EstimateBound(line: seq<byte>)
    ensures Estimate(line) <= 128 * |line|
  {
    if line != [] { EstimateBound(line[..|line| - 1]); }
  }

  /** The comparison starts from the largest int, so larger estimates do not count. */
  function Capped(est: nat): nat {
    if est < 0x7fff_ffff then est else 0x7fff_ffff
  }

  /** The automatic choice is the first filter with the least estimate, estimates counting up to the largest int. */
  lemma {:induction false} ChoiceMinimises(img: Image, y: nat, k: nat)
    requires img.Valid() && y < img.height && k <= 5
    ensures var c := Tried(img, y, k);
            && (k > 0 ==> c.filter < k && c.estimate == Capped(Estimate(LineOf(img, y, c.filter))))
            && (forall f :: 0 <= f < k ==> c.estimate <= Capped(Estimate(LineOf(img, y, f))))
            && (forall f :: 0 <= f < c.filter ==> c.estimate < Capped(Estimate(LineOf(img, y, f))))
  {
    hide LineOf, Estimate;
    if k > 0 { ChoiceMinimises(img, y, k - 1); }
  }

  /** A filter type from 0 to 4 is forced; any other value means the automatic choice. */
  lemma ChosenExactly(img: Image, y: nat, force: int)
    requires img.Valid() && y < img.height
    ensures var f := ChosenFilter(img, y, force);
            && (0 <= force < 5 ==> f == force)
            && (force < 0 || force >= 5 ==> f < 5 && forall g :: 0 <= g < 5 ==>
                  Capped(Estimate(LineOf(img, y, f))) <= Capped(Estimate(LineOf(img, y, g))) &&
                  (g < f ==> Capped(Estimate(LineOf(img, y, f))) < Capped(Estimate(LineOf(img, y, g)))))
  {
    hide LineOf, Estimate, Tried, Capped;
    ChoiceMinimises(img, y, 5);
  }

  /** Below 2^24 bytes in a row every estimate counts as it is. */
  lemma EstimatesFit(img: Image, y: nat, f: nat)
    requires img.Valid() && y < img.height && 128 * img.RowBytes() < 0x7fff_ffff
    ensures Capped(Estimate(LineOf(img, y, f))) == Estimate(LineOf(img, y, f))
  {
    EstimateBound(LineOf(img, y, f));
    hide LineOf, Estimate;
  }

  /** A filtered byte counts by its distance to the nearest multiple of 256. */
  lemma EstimateNext(line: seq<byte>, b: byte)
    ensures Estimate([]) == 0 && Estimate(line + [b]) == Estimate(line) + if b < 128 then b else 256 - b
  {
    assert (line + [b])[..|line|] == line;
  }

  method EstimateLine(line_buffer: array<byte>) returns (est: nat)
    ensures est == Estimate(line_buffer[..])
  {
    est := 0;
    for i := 0 to line_buffer.Length
      invariant est == Estimate(line_buffer[..i])
    {
      assert line_buffer[..i + 1][..i] == line_buffer[..i];
      est := est + Abs(Signed(line_buffer[i]));
    }
    assert line_buffer[..line_buffer.Length] == line_buffer[..];
  }

  /** Each filter that is tried for the row, or the forced one, can be. */
  predicate RowEncodable(img: Image, y: nat, force: int) {
    if 0 <= force < 5 then Encodable(img, y, force) else forall f :: 0 <= f < 5 ==> Encodable(img, y, f)
  }

  predicate ImageEncodable(img: Image, force: int) {
    forall y :: 0 <= y < img.height ==> RowEncodable(img, y, force)
  }

  /** Every image with columns can be filtered; without columns, only by what forces line type 0 on every row. */
  lemma ImageEncodableExactly(img: Image, force: int)
    requires 1 <= img.comp
    ensures ImageEncodable(img, force) <==>
            img.width > 0 || img.height == 0 || force == 0 || (force == 2 && img.height == 1)
  {
    hide Encodable;
    forall y: nat, f: nat | f < 5 ensures Encodable(img, y, f) <==> img.width > 0 || f == 0 || (y == 0 && f == 2) {
      EncodableExactly(img, y, f);
    }
    if img.height > 0 && ImageEncodable(img, force) {
      assert RowEncodable(img, 0, force);
      if !(0 <= force < 5) { assert Encodable(img, 0, 1); }
      if img.height > 1 { assert RowEncodable(img, 1, force); }
    }
  }

  /** One row: its filter type, and the filtered line in the buffer. */
  method FilterLine(img: Image, y: nat, force: int, line_buffer: array<byte>) returns (filter_type: nat)
    requires img.Valid() && y < img.height && line_buffer.Length == img.RowBytes() && RowEncodable(img, y, force)
    modifies line_buffer
    ensures filter_type == ChosenFilter(img, y, force)
    ensures line_buffer[..] == LineOf(img, y, filter_type)
  {
    hide Filter, Estimate, Encodable;
    var force_filter := if force >= 5 then -1 else force;
    if force_filter > -1 {
      filter_type := force_filter;
      EncodeLine(img, y, force_filter, line_buffer);
    } else {
      var best_filter: nat, best_filter_val: nat := 0, 0x7fff_ffff;
      filter_type := 0;
      while filter_type < 5
        invariant filter_type <= 5
        invariant Choice(best_filter, best_filter_val) == Tried(img, y, filter_type)
      {
        EncodeLine(img, y, filter_type, line_buffer);
        var est := EstimateLine(line_buffer);
        if est < best_filter_val { best_filter_val, best_filter := est, filter_type; }
        filter_type := filter_type + 1;
      }
      if filter_type != best_filter {
        EncodeLine(img, y, best_filter, line_buffer);
        filter_type := best_filter;
      }
    }
  }

  // ----- the filtered image

  function FilteredRow(img: Image, y: nat, force: int): (r: seq<byte>)
    requires img.Valid() && y < img.height
    ensures |r| == img.RowBytes() + 1
  {
    var f := ChosenFilter(img, y, force);
    [f] + LineOf(img, y, f)
  }

  /** The first `k` rows, each preceded by its filter type. */
  function FilteredRows(img: Image, force: int, k: nat): (r: seq<byte>)
    requires img.Valid() && k <= img.height
    ensures |r| == k * (img.RowBytes() + 1)
  {
    hide FilteredRow, ChosenFilter, LineOf;
    if k == 0 then []
    else
      assert (k - 1) * (img.RowBytes() + 1) + (img.RowBytes() + 1) == k * (img.RowBytes() + 1);
      FilteredRows(img, force, k - 1) + FilteredRow(img, k - 1, force)
  }

  method FilterImage(img: Image, force: int) returns (filt: array<byte>)
    requires img.Valid() && ImageEncodable(img, force)
    ensures filt[..] == FilteredRows(img, force, img.height)
  {
    hide FilteredRow, FilteredRows, ImageEncodable, RowEncodable, ChosenFilter, LineOf, Image.Valid;
    var w := img.RowBytes();
    NoRows(img, force);
    filt := new byte[(w + 1) * img.height];
    var line_buffer := new byte[w];
    for j := 0 to img.height
      invariant fresh(filt) && fresh(line_buffer)
      invariant j * (w + 1) <= filt.Length && filt[..j * (w + 1)] == FilteredRows(img, force, j)
    {
      EachEncodable(img, force, j);
      var filter_type := FilterLine(img, j, force, line_buffer);
      var o := j * (w + 1);
      assert o + (w + 1) == (j + 1) * (w + 1) <= filt.Length by { MulMono(j + 1, img.height, w + 1); }
      WriteRow(img, j, force, filt, o, filter_type, line_buffer);
    }
    assert filt[..img.height * (w + 1)] == filt[..];
  }

  lemma NoRows(img: Image, force: int)
    requires img.Valid()
    ensures FilteredRows(img, force, 0) == []
  {
  }

  lemma EachEncodable(img: Image, force: int, y: nat)
    requires ImageEncodable(img, force) && y < img.height
    ensures RowEncodable(img, y, force)
  {
    hide RowEncodable;
  }

  /** The filter type and the line go to the buffer at offset `o`, where row `j` starts. */
  method WriteRow(img: Image, j: nat, force: int, filt: array<byte>, o: nat, filter_type: nat, line_buffer: array<byte>)
    requires img.Valid() && j < img.height && filt != line_buffer
    requires filter_type == ChosenFilter(img, j, force) && line_buffer[..] == LineOf(img, j, filter_type)
    requires o + |line_buffer[..]| + 1 <= filt.Length && filt[..o] == FilteredRows(img, force, j)
    modifies filt
    ensures filt[..o + img.RowBytes() + 1] == FilteredRows(img, force, j + 1)
  {
    hide LineOf, ChosenFilter;
    var w := line_buffer.Length;
    ghost var before := filt[..o];
    filt[o] := filter_type;
    forall k | 0 <= k < w { filt[o + 1 + k] := line_buffer[k]; }
    assert filt[..o + (w + 1)] == before + ([filter_type] + line_buffer[..]);
  }

  // ----- unfiltering a whole image

  function UnfilterRows(bs: seq<byte>, w: nat, n: nat, prior: seq<byte>, h: nat): Option<seq<seq<byte>>>
    requires |prior| == w
    decreases h
  {
    if h == 0 then (if bs == [] then Some([]) else None)
    else if |bs| < w + 1 || bs[0] > 4 then None
    else
      var row := Unfilter(bs[0], bs[1..w + 1], prior, n, w);
      match UnfilterRows(bs[w + 1..], w, n, row, h - 1)
      case None => None
      case Some(rows) => Some([row] + rows)
  }

  function Rows(img: Image, k: nat): (r: seq<seq<byte>>)
    requires img.Valid() && k <= img.height
    ensures |r| == img.height - k
    decreases img.height - k
  {
    if k == img.height then [] else [img.Row(k)] + Rows(img, k + 1)
  }

  /** The rows from `k` on, unfiltered in order with each row's reconstruction feeding the next. */
  function FilteredFrom(img: Image, force: int, k: nat): seq<byte>
    requires img.Valid() && k <= img.height
    decreases img.height - k
  {
    if k == img.height then [] else FilteredRow(img, k, force) + FilteredFrom(img, force, k + 1)
  }

  lemma {:induction false} RowsFromFront(img: Image, force: int, k: nat)
    requires img.Valid() && k <= img.height
    ensures FilteredRows(img, force, img.height) == FilteredRows(img, force, k) + FilteredFrom(img, force, k)
    decreases img.height - k
  {
    hide FilteredRow;
    if k < img.height {
      RowsFromFront(img, force, k + 1);
      var a, b, c := FilteredRows(img, force, k), FilteredRow(img, k, force), FilteredFrom(img, force, k + 1);
      assert (a + b) + c == a + (b + c);
    } else {
      assert FilteredRows(img, force, k) + [] == FilteredRows(img, force, k);
    }
  }

  lemma {:induction false} UnfilterRowsRestores(img: Image, force: int, k: nat, prior: seq<byte>)
    requires img.Valid() && k <= img.height && (k < img.height ==> prior == img.Prior(k)) && |prior| == img.RowBytes()
    ensures UnfilterRows(FilteredFrom(img, force, k), img.RowBytes(), img.comp, prior, img.height - k) ==
            Some(Rows(img, k))
    decreases img.height - k
  {
    hide ChosenFilter, Unfilter, Filter;
    if k < img.height {
      var f, row := ChosenFilter(img, k, force), img.Row(k);
      UnfilterRestores(f, row, prior, img.comp, |row|);
      assert row[..|row|] == row;
      UnfilterRowsRestores(img, force, k + 1, row);
      hide Image.Valid, Image.Row, Image.Prior, LineOf, UnfilterRows;
      UnfilterFirst(f, LineOf(img, k, f), FilteredFrom(img, force, k + 1), prior, img.comp, img.height - k);
    }
  }

  lemma UnfilterFirst(f: nat, line: seq<byte>, rest: seq<byte>, prior: seq<byte>, n: nat, h: nat)
    requires f <= 4 && |line| == |prior| && h > 0
    ensures UnfilterRows(([f] + line) + rest, |line|, n, prior, h) ==
            var row := Unfilter(f, line, prior, n, |line|);
            match UnfilterRows(rest, |line|, n, row, h - 1) case None => None case Some(rows) => Some([row] + rows)
  {
    hide Unfilter;
    var bs := ([f] + line) + rest;
    assert bs[1..|line| + 1] == line && bs[|line| + 1..] == rest;
  }

  // ----- the file

  const SIGNATURE: seq<byte> := [137, 80, 78, 71, 13, 10, 26, 10]
  const IHDR: seq<byte> := [73, 72, 68, 82]
  const IDAT: seq<byte> := [73, 68, 65, 84]
  const IEND: seq<byte> := [73, 69, 78, 68]

  /** ctype[] */
  function ColorType(comp: nat): byte
    requires 1 <= comp <= 4
  {
    [0, 4, 2, 6][comp - 1]
  }

  /** Section 3.2: length, type, data, and the CRC of type and data. */
  function Chunk(tag: seq<byte>, data: seq<byte>): seq<byte> {
    BigEndian32(|data|) + tag + data + BigEndian32(Crc32.Crc(tag + data))
  }

  function HeaderData(img: Image): (r: seq<byte>)
    requires 1 <= img.comp <= 4
    ensures |r| == 13
  {
    BigEndian32(img.width) + BigEndian32(img.height) + [8, ColorType(img.comp), 0, 0, 0]
  }

  ghost function Png(img: Image, force: int, level: int): seq<byte>
    requires img.Valid()
  {
    SIGNATURE + (Chunk(IHDR, HeaderData(img)) +
    (Chunk(IDAT, Compressed(FilteredRows(img, force, img.height), level)) + Chunk(IEND, [])))
  }

  function Text(b: seq<byte>): string {
    seq(|b|, i requires 0 <= i < |b| => b[i] as char)
  }

  /** Signature and chunk types: sections 3.1 and 4.1 of RFC 2083. */
  lemma Names()
    ensures SIGNATURE[0] == 0x89 && Text(SIGNATURE[1..]) == "PNG\r\n" + [0x1A as char] + "\n"
    ensures Text(IHDR) == "IHDR" && Text(IDAT) == "IDAT" && Text(IEND) == "IEND"
  {
  }

  // ----- the decoder

  datatype Picture = Picture(width: nat, height: nat, comp: nat, rows: seq<seq<byte>>)

  function FromBigEndian32(b: seq<byte>): nat
    requires |b| == 4
  {
    (b[0] as nat) * 0x100_0000 + (b[1] as nat) * 0x1_0000 + (b[2] as nat) * 0x100 + b[3]
  }

  /** The data of a chunk of the expected type with a correct CRC, and what follows it. */
  function ReadChunk(tag: seq<byte>, bs: seq<byte>): (r: Option<(seq<byte>, seq<byte>)>)
    requires |tag| == 4
  {
    if |bs| < 12 then None
    else
      var len := FromBigEndian32(bs[..4]);
      if |bs| < 12 + len || bs[4..8] != tag then None
      else
        var data := bs[8..8 + len];
        if bs[8 + len..12 + len] != BigEndian32(Crc32.Crc(tag + data)) then None
        else Some((data, bs[12 + len..]))
  }

  /** Section 4.1.1: 8 bits deep, no interlacing, the four colour types without a palette; zero sizes are invalid. */
  function ReadHeader(h: seq<byte>): Option<(nat, nat, nat)> {
    if |h| != 13 || h[8] != 8 || h[10..13] != [0, 0, 0] then None
    else
      var (w, ht) := (FromBigEndian32(h[..4]), FromBigEndian32(h[4..8]));
      if w == 0 || ht == 0 then None
      else match h[9]
        case 0 => Some((w, ht, 1))
        case 4 => Some((w, ht, 2))
        case 2 => Some((w, ht, 3))
        case 6 => Some((w, ht, 4))
        case _ => None
  }

  function DecodeRows(w: nat, h: nat, n: nat, idat: seq<byte>): Option<Picture> {
    hide Decompress, UnfilterRows;
    match Decompress(idat)
    case None => None
    case Some(filtered) =>
      var rowBytes := w * n;
      match UnfilterRows(filtered, rowBytes, n, ZeroRow(rowBytes), h)
      case None => None
      case Some(rows) => Some(Picture(w, h, n, rows))
  }

  function DecodePng(bs: seq<byte>): Option<Picture> {
    if |bs| < 8 || bs[..8] != SIGNATURE then None
    else match ReadChunk(IHDR, bs[8..])
      case None => None
      case Some((header, rest)) =>
        match ReadHeader(header)
        case None => None
        case Some((w, h, n)) =>
          match ReadChunk(IDAT, rest)
          case None => None
          case Some((idat, end)) => if ReadChunk(IEND, end) == Some(([], [])) then DecodeRows(w, h, n, idat) else None
  }

  // ----- round trip

  lemma BigEndianRoundTrip(x: nat)
    requires x < 0x1_0000_0000
    ensures FromBigEndian32(BigEndian32(x)) == x
  {
    var a, b, c := x / 0x100_0000, x / 0x1_0000, x / 0x100;
    assert a == b / 256 && b == c / 256;
    assert a < 256;
  }

  lemma ReadChunkOfChunk(tag: seq<byte>, data: seq<byte>, rest: seq<byte>)
    requires |tag| == 4 && |data| < 0x1_0000_0000
    ensures ReadChunk(tag, Chunk(tag, data) + rest) == Some((data, rest))
  {
    hide Crc32.Crc, BigEndian32, FromBigEndian32;
    var len, crc := BigEndian32(|data|), BigEndian32(Crc32.Crc(tag + data));
    var bs := Chunk(tag, data) + rest;
    assert bs == len + (tag + (data + (crc + rest)));
    BigEndianRoundTrip(|data|);
    assert bs[..4] == len && bs[4..8] == tag && bs[8..8 + |data|] == data;
    assert bs[8 + |data|..12 + |data|] == crc && bs[12 + |data|..] == rest;
  }

  lemma ReadHeaderOfHeader(img: Image)
    requires 1 <= img.comp <= 4 && img.width < 0x8000_0000 && img.height < 0x8000_0000
    ensures ReadHeader(HeaderData(img)) ==
            if img.width == 0 || img.height == 0 then None else Some((img.width, img.height, img.comp))
  {
    hide BigEndian32, FromBigEndian32;
    BigEndianRoundTrip(img.width);
    BigEndianRoundTrip(img.height);
    var h := HeaderData(img);
    assert h[..4] == BigEndian32(img.width) && h[4..8] == BigEndian32(img.height);
    assert h[10..13] == [0, 0, 0];
  }

  lemma DecodeRowsRestores(img: Image, force: int, level: int)
    requires img.Valid() && img.height > 0
    ensures DecodeRows(img.width, img.height, img.comp, Compressed(FilteredRows(img, force, img.height), level)) ==
            Some(Picture(img.width, img.height, img.comp, Rows(img, 0)))
  {
    hide Decompress, Compressed, UnfilterRows, FilteredRow, Rows;
    var filtered := FilteredRows(img, force, img.height);
    assert filtered != [];
    RoundTrip(filtered, level);
    RowsFromFront(img, force, 0);
    assert FilteredRows(img, force, 0) + FilteredFrom(img, force, 0) == FilteredFrom(img, force, 0);
    assert img.Prior(0) == ZeroRow(img.RowBytes());
    UnfilterRowsRestores(img, force, 0, img.Prior(0));
  }

  /**
   * Decoding what was written restores every pixel byte, for every stride, pixel size, flip flag, filter choice
   * and compression level. Sizes are those an int can hold; an image without rows or columns does not decode.
   */
  lemma PngRoundTrip(img: Image, force: int, level: int)
    requires img.Valid() && img.width < 0x8000_0000 && img.height < 0x8000_0000
    requires StoredLimit(img.height * (img.RowBytes() + 1)) + 4 < 0x8000_0000
    ensures DecodePng(Png(img, force, level)) ==
            if img.width == 0 || img.height == 0 then None
            else Some(Picture(img.width, img.height, img.comp, Rows(img, 0)))
  {
    hide Chunk, ReadChunk, HeaderData, ReadHeader, DecodeRows, Compressed, FilteredRows, Rows;
    var idat := Compressed(FilteredRows(img, force, img.height), level);
    CompressedLength(FilteredRows(img, force, img.height), level);
    var end := Chunk(IEND, []);
    var rest := Chunk(IDAT, idat) + end;
    var bs := Png(img, force, level);
    assert bs[..8] == SIGNATURE && bs[8..] == Chunk(IHDR, HeaderData(img)) + rest;
    ReadChunkOfChunk(IHDR, HeaderData(img), rest);
    ReadHeaderOfHeader(img);
    ReadChunkOfChunk(IDAT, idat, end);
    ReadChunkOfChunk(IEND, [], []);
    assert end + [] == end;
    if img.width > 0 && img.height > 0 { DecodeRowsRestores(img, force, level); }
  }

  // ----- writing it

  /** stbiw__wpcrc and the lines before it: one chunk appended to the output. */
  method WriteChunk(o: seq<byte>, tag: seq<byte>, data: seq<byte>) returns (out: seq<byte>)
    requires |tag| == 4
    ensures out == o + Chunk(tag, data)
  {
    hide BigEndian32, Crc32.Crc;
    out := o + BigEndian32(|data|);
    out := out + tag;
    out := out + data;
    var crc := Crc32.Compute(out[|out| - |data| - 4..]);
    assert out[|out| - |data| - 4..] == tag + data;
    out := out + BigEndian32(crc);
    JoinChunk(o, BigEndian32(|data|), tag, data, BigEndian32(crc));
  }

  lemma JoinChunk(o: seq<byte>, a: seq<byte>, b: seq<byte>, c: seq<byte>, d: seq<byte>)
    ensures (((o + a) + b) + c) + d == o + (a + b + c + d)
  {
  }

  /** The image at `origin` in the pixel data; a stride of 0 means rows without gaps. */
  function ImageAt(pixels: seq<byte>, origin: nat, stride_bytes: int, x: nat, y: nat, n: nat, flip: bool): Image {
    Image(pixels, origin, if stride_bytes == 0 then x * n else stride_bytes, x, y, n, flip)
  }

  /** stbi_write_png_to_mem */
  method WritePng(pixels: seq<byte>, origin: nat, stride_bytes: int, x: nat, y: nat, n: nat, flip: bool, force: int,
                  level: int) returns (out: seq<byte>)
    requires ImageAt(pixels, origin, stride_bytes, x, y, n, flip).Valid()
    requires ImageEncodable(ImageAt(pixels, origin, stride_bytes, x, y, n, flip), force)
    ensures out == Png(ImageAt(pixels, origin, stride_bytes, x, y, n, flip), force, level)
  {
    hide Chunk, HeaderData, FilteredRows, Compressed, Decompress, ImageEncodable;
    var stride: int := stride_bytes;
    if stride == 0 { stride := x * n; }
    var img := Image(pixels, origin, stride, x, y, n, flip);
    var filt := FilterImage(img, force);
    var zlib := ZlibEncoder.Compress(filt[..], level);
    out := SIGNATURE;
    out := WriteChunk(out, IHDR, HeaderData(img));
    out := WriteChunk(out, IDAT, zlib);
    out := WriteChunk(out, IEND, []);
  }
}
