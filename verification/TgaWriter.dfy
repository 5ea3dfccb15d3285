/** TGA output: the 64-byte write buffer, pixels, and the run-length coder, against a TGA reader. */
module TgaWriter {
  import opened Bits

  type Pixel = seq<byte>

  const BUFFER_SIZE: nat := 64

  // ----- what is written for a pixel

  /** C's division, which truncates. */
  function TruncDiv(n: int, d: nat): int
    requires d > 0
  {
    if n >= 0 then n / d else -((-n) / d)
  }

  /** A channel drawn over a background. */
  function Composite(bg: byte, d: byte, alpha: byte): (r: byte)
    ensures bg <= d ==> bg <= r <= d
    ensures d <= bg ==> d <= r <= bg
  {
    CompositeBounds(bg, d, alpha);
    bg + TruncDiv((d - bg) * alpha, 255)
  }

  lemma CompositeBounds(bg: byte, d: byte, alpha: byte)
    ensures var r := bg + TruncDiv((d - bg) * alpha, 255);
            (bg <= d ==> bg <= r <= d) && (d <= bg ==> d <= r <= bg)
  {
    if d >= bg { ScaledBounds(d - bg, alpha); } else { ScaledBounds(bg - d, alpha); NegateProduct(bg - d, alpha); }
  }

  lemma NegateProduct(a: int, b: int)
    ensures (-a) * b == -(a * b)
  {
  }

  lemma ScaledBounds(a: nat, alpha: byte)
    ensures 0 <= a * alpha / 255 <= a
  {
    MulMono(alpha, 255, a);
    assert a * alpha == alpha * a;
    assert 255 * a / 255 == a;
  }

  function Colour(rgbDir: int, d: Pixel): seq<byte>
    requires rgbDir == 1 || rgbDir == -1
    requires |d| >= 3
  {
    [d[1 - rgbDir], d[1], d[1 + rgbDir]]
  }

  function Channels(rgbDir: int, comp: nat, writeAlpha: int, expandMono: bool, d: Pixel): seq<byte>
    requires (rgbDir == 1 || rgbDir == -1) && |d| == comp >= 1
  {
    if comp <= 2 then (if expandMono then [d[0], d[0], d[0]] else [d[0]])
    else if comp == 4 && writeAlpha == 0 then
      Colour(rgbDir, [Composite(255, d[0], d[3]), Composite(0, d[1], d[3]), Composite(255, d[2], d[3])])
    else if comp <= 4 then Colour(rgbDir, d)
    else []
  }

  /** stbiw__write_pixel: alpha before or after the channels, or not at all. */
  function PixelBytes(rgbDir: int, comp: nat, writeAlpha: int, expandMono: bool, d: Pixel): seq<byte>
    requires (rgbDir == 1 || rgbDir == -1) && |d| == comp >= 1
  {
    (if writeAlpha < 0 then [d[comp - 1]] else []) + Channels(rgbDir, comp, writeAlpha, expandMono, d) +
    (if writeAlpha > 0 then [d[comp - 1]] else [])
  }

  function HasAlpha(comp: nat): int {
    if comp == 2 || comp == 4 then 1 else 0
  }

  /** A pixel as TGA stores it: blue, green, red, alpha. */
  function Stored(d: Pixel): seq<byte> {
    if d == [] then [] else PixelBytes(-1, |d|, HasAlpha(|d|), false, d)
  }

  /** Back to the order of the image. */
  function Restored(s: seq<byte>): Pixel {
    if |s| == 3 then [s[2], s[1], s[0]] else if |s| == 4 then [s[2], s[1], s[0], s[3]] else s
  }

  lemma RestoredStored(d: Pixel)
    requires 1 <= |d| <= 4
    ensures |Stored(d)| == |d| && Restored(Stored(d)) == d
  {
  }

  // ----- packets

  /** The raw scan: it looks two pixels back, and gives back a pixel when it stops. */
  function RawLength<T(==)>(row: seq<T>, i: nat, k: nat): (len: nat)
    requires i + 2 <= k <= |row| && k - i <= 128
    ensures 1 <= len <= 128 && i + len <= |row|
    decreases |row| - k
  {
    if k == |row| || k - i == 128 then k - i
    else if row[k - 2] != row[k] then RawLength(row, i, k + 1)
    else k - i - 1
  }

  function RunLength<T(==)>(row: seq<T>, i: nat, k: nat): (len: nat)
    requires i + 2 <= k <= |row| && k - i <= 128 && forall j :: i <= j < k ==> row[j] == row[i]
    ensures 2 <= len <= 128 && i + len <= |row| && forall j :: i <= j < i + len ==> row[j] == row[i]
    decreases |row| - k
  {
    if k == |row| || k - i == 128 || row[k] != row[i] then k - i else RunLength(row, i, k + 1)
  }

  predicate IsRun<T(==)>(row: seq<T>, i: nat)
    requires i < |row|
  {
    i + 1 < |row| && row[i] == row[i + 1]
  }

  function PacketLength<T(==)>(row: seq<T>, i: nat): (len: nat)
    requires i < |row|
    ensures 1 <= len <= 128 && i + len <= |row|
    ensures IsRun(row, i) ==> 2 <= len && forall j :: i <= j < i + len ==> row[j] == row[i]
  {
    if i + 1 == |row| then 1 else if row[i] == row[i + 1] then RunLength(row, i, i + 2) else RawLength(row, i, i + 2)
  }

  datatype Packet<T> = Run(d: T, len: nat) | Raw(pixels: seq<T>) {
    function Count(): nat {
      match this case Run(_, len) => len case Raw(pixels) => |pixels|
    }

    function Pixels(): (r: seq<T>)
      ensures |r| == Count()
    {
      match this case Run(d, len) => Repeat(d, len) case Raw(pixels) => pixels
    }

    /** Runs of 2 to 128 pixels, raw packets of 1 to 128. */
    predicate Valid() {
      match this case Run(_, len) => 2 <= len <= 128 case Raw(pixels) => 1 <= |pixels| <= 128
    }
  }

  function Repeat<T>(d: T, n: nat): (r: seq<T>)
    ensures |r| == n
  {
    seq(n, _ => d)
  }

  function PacketAt<T(==)>(row: seq<T>, i: nat): (p: Packet<T>)
    requires i < |row|
    ensures p.Valid() && 1 <= p.Count() && i + p.Count() <= |row|
  {
    var len := PacketLength(row, i);
    if IsRun(row, i) then Run(row[i], len) else Raw(row[i..i + len])
  }

  /** The packets from pixel `i` on. */
  function PacketsFrom<T(==)>(row: seq<T>, i: nat): seq<Packet<T>>
    requires i <= |row|
    decreases |row| - i
  {
    if i == |row| then [] else [PacketAt(row, i)] + PacketsFrom(row, i + PacketAt(row, i).Count())
  }

  function Expand<T>(ps: seq<Packet<T>>): seq<T> {
    if ps == [] then [] else ps[0].Pixels() + Expand(ps[1..])
  }

  predicate AllValid<T>(ps: seq<Packet<T>>) {
    forall i :: 0 <= i < |ps| ==> ps[i].Valid()
  }

  lemma PacketCovers<T>(row: seq<T>, i: nat)
    requires i < |row|
    ensures var p := PacketAt(row, i);
            p.Pixels() == row[i..i + p.Count()]
  {
    hide PacketLength;
  }

  /** The packets are well formed and cover the row exactly, although the raw scan looks two pixels back. */
  lemma {:induction false} PacketsCover<T>(row: seq<T>, i: nat)
    requires i <= |row|
    ensures AllValid(PacketsFrom(row, i)) && Expand(PacketsFrom(row, i)) == row[i..]
    decreases |row| - i
  {
    hide *;
    if i == |row| {
      PacketsEnd(row);
      assert row[i..] == [];
    } else {
      var p := PacketAt(row, i);
      PacketsUnfold(row, i);
      PacketCovers(row, i);
      PacketsCover(row, i + p.Count());
      CoverStep(row, i, p, PacketsFrom(row, i + p.Count()));
    }
  }

  lemma CoverStep<T>(row: seq<T>, i: nat, p: Packet<T>, ps: seq<Packet<T>>)
    requires p.Valid() && AllValid(ps) && i + p.Count() <= |row|
    requires p.Pixels() == row[i..i + p.Count()] && Expand(ps) == row[i + p.Count()..]
    ensures AllValid([p] + ps) && Expand([p] + ps) == row[i..]
  {
    hide *;
    ExpandFront(p, ps);
    SliceJoin(row, i, p.Count());
  }

  lemma PacketsEnd<T>(row: seq<T>)
    ensures PacketsFrom(row, |row|) == [] && Expand(PacketsFrom(row, |row|)) == [] && AllValid(PacketsFrom(row, |row|))
  {
  }

  lemma PacketsUnfold<T>(row: seq<T>, i: nat)
    requires i < |row|
    ensures PacketsFrom(row, i) == [PacketAt(row, i)] + PacketsFrom(row, i + PacketAt(row, i).Count())
  {
    hide PacketAt;
  }

  lemma SliceJoin<T>(row: seq<T>, i: nat, len: nat)
    requires i + len <= |row|
    ensures row[i..i + len] + row[i + len..] == row[i..]
  {
  }

  lemma ExpandFront<T>(p: Packet<T>, ps: seq<Packet<T>>)
    requires p.Valid() && AllValid(ps)
    ensures AllValid([p] + ps) && Expand([p] + ps) == p.Pixels() + Expand(ps)
  {
    hide Packet.Pixels, Packet.Valid;
    assert ([p] + ps)[1..] == ps;
  }

  // ----- packets as bytes

  function AllStored(row: seq<Pixel>): seq<byte> {
    if row == [] then [] else AllStored(row[..|row| - 1]) + Stored(row[|row| - 1])
  }

  function PacketBytes(p: Packet<Pixel>): seq<byte> {
    match p
    case Run(d, len) => [UChar(len - 129)] + Stored(d)
    case Raw(pixels) => RawBytes(pixels)
  }

  function RawBytes(pixels: seq<Pixel>): seq<byte> {
    [UChar(|pixels| - 1)] + AllStored(pixels)
  }

  function AllBytes(ps: seq<Packet<Pixel>>): seq<byte> {
    if ps == [] then [] else PacketBytes(ps[0]) + AllBytes(ps[1..])
  }

  ghost predicate Uniform(row: seq<Pixel>, comp: nat) {
    forall i :: 0 <= i < |row| ==> |row[i]| == comp
  }

  // ----- a reader of one row

  datatype Row = Row(pixels: seq<Pixel>, rest: seq<byte>)

  function Prepend(head: seq<Pixel>, r: Option<Row>): Option<Row> {
    match r
    case None => None
    case Some(row) => Some(Row(head + row.pixels, row.rest))
  }

  /** `n` stored pixels of `size` bytes. */
  function ReadPixels(bytes: seq<byte>, n: nat, size: nat): Option<Row> {
    if n == 0 then Some(Row([], bytes))
    else if |bytes| < size then None
    else Prepend([Restored(bytes[..size])], ReadPixels(bytes[size..], n - 1, size))
  }

  /** A row of `n` pixels in packets; a packet may not cross the end of the row. */
  function ReadPackets(bytes: seq<byte>, n: nat, size: nat): Option<Row>
    decreases n
  {
    if n == 0 then Some(Row([], bytes))
    else if bytes == [] then None
    else
      var h := bytes[0];
      var len := if h < 128 then h + 1 else h - 127;
      if len > n then None
      else if h < 128 then
        match ReadPixels(bytes[1..], len, size)
        case None => None
        case Some(head) => Prepend(head.pixels, ReadPackets(head.rest, n - len, size))
      else if |bytes| < 1 + size then None
      else Prepend(Repeat(Restored(bytes[1..1 + size]), len), ReadPackets(bytes[1 + size..], n - len, size))
  }

  lemma ReadNext(s: seq<byte>, rest: seq<byte>, n: nat, size: nat)
    requires |s| == size
    ensures ReadPixels(s + rest, n + 1, size) == Prepend([Restored(s)], ReadPixels(rest, n, size))
  {
    hide Restored, Prepend;
    assert (s + rest)[..size] == s && (s + rest)[size..] == rest;
  }

  lemma {:induction false} ReadAll(row: seq<Pixel>, comp: nat, rest: seq<byte>)
    requires 1 <= comp <= 4 && Uniform(row, comp)
    ensures ReadPixels(AllStored(row) + rest, |row|, comp) == Some(Row(row, rest))
  {
    if row == [] {
      assert [] + rest == rest;
    } else {
      StoredFront(row);
      var d, tail := row[0], row[1..];
      RestoredStored(d);
      ReadAll(tail, comp, rest);
      hide Stored, Restored, AllStored, ReadPixels;
      JoinThree(Stored(d), AllStored(tail), rest);
      ReadNext(Stored(d), AllStored(tail) + rest, |tail|, comp);
      assert [d] + tail == row;
    }
  }

  lemma {:induction false} StoredFront(row: seq<Pixel>)
    requires row != []
    ensures AllStored(row) == Stored(row[0]) + AllStored(row[1..])
  {
    hide Stored;
    var n := |row|;
    if n > 1 {
      var init := row[..n - 1];
      StoredFront(init);
      assert init[0] == row[0] && init[1..] == row[1..][..n - 2];
      JoinThree(Stored(row[0]), AllStored(init[1..]), Stored(row[n - 1]));
    }
  }

  lemma ReadRaw(h: byte, row: seq<Pixel>, more: seq<byte>, n: nat, comp: nat)
    requires |row| == h + 1 <= n && h < 128 && 1 <= comp <= 4 && Uniform(row, comp)
    ensures ReadPackets(([h] + AllStored(row)) + more, n, comp) == Prepend(row, ReadPackets(more, n - |row|, comp))
  {
    hide *;
    var b := ([h] + AllStored(row)) + more;
    assert b[0] == h && b[1..] == AllStored(row) + more;
    ReadAll(row, comp, more);
    UnfoldRaw(b, n, comp, Row(row, more));
  }

  lemma UnfoldRaw(b: seq<byte>, n: nat, size: nat, head: Row)
    requires b != [] && b[0] < 128 && b[0] + 1 <= n && ReadPixels(b[1..], b[0] + 1, size) == Some(head)
    ensures ReadPackets(b, n, size) == Prepend(head.pixels, ReadPackets(head.rest, n - (b[0] + 1), size))
  {
    hide ReadPixels, Prepend;
  }

  lemma ReadRun(h: byte, d: Pixel, more: seq<byte>, n: nat)
    requires 128 <= h && h - 127 <= n && 1 <= |d| <= 4
    ensures ReadPackets(([h] + Stored(d)) + more, n, |d|) ==
            Prepend(Repeat(d, h - 127), ReadPackets(more, n - (h - 127), |d|))
  {
    RestoredStored(d);
    hide Stored, Restored, Prepend, Repeat;
    var b := ([h] + Stored(d)) + more;
    assert b[0] == h && b[1..1 + |d|] == Stored(d) && b[1 + |d|..] == more;
  }

  lemma ReadPacket(p: Packet<Pixel>, more: seq<byte>, n: nat, comp: nat)
    requires p.Valid() && Uniform(p.Pixels(), comp) && 1 <= comp <= 4 && p.Count() <= n
    ensures ReadPackets(PacketBytes(p) + more, n, comp) == Prepend(p.Pixels(), ReadPackets(more, n - p.Count(), comp))
  {
    match p
    case Run(d, len) =>
      RunParts(d, len, comp);
      hide *;
      ReadRun(len + 127, d, more, n);
    case Raw(pixels) =>
      hide *;
      RawCounts(pixels);
      RawParts(pixels);
      ReadRaw(|pixels| - 1, pixels, more, n, comp);
  }

  lemma RunParts(d: Pixel, len: nat, comp: nat)
    requires Run(d, len).Valid() && Uniform(Run(d, len).Pixels(), comp)
    ensures |d| == comp && PacketBytes(Run(d, len)) == [len + 127] + Stored(d)
    ensures Run(d, len).Pixels() == Repeat(d, len) && Run(d, len).Count() == len && 2 <= len <= 128
  {
    assert Run(d, len).Pixels()[0] == d;
    hide Stored;
  }

  lemma RawParts(pixels: seq<Pixel>)
    requires 1 <= |pixels| <= 128
    ensures PacketBytes(Raw(pixels)) == [|pixels| - 1] + AllStored(pixels)
  {
    hide *;
    RawHeader(|pixels|);
    RawIs(pixels);
    RawBytesAre(pixels);
  }

  lemma RawIs(pixels: seq<Pixel>)
    ensures PacketBytes(Raw(pixels)) == RawBytes(pixels)
  {
    hide RawBytes;
  }

  lemma RawBytesAre(pixels: seq<Pixel>)
    ensures RawBytes(pixels) == [UChar(|pixels| - 1)] + AllStored(pixels)
  {
    hide AllStored, UChar;
  }

  lemma RawHeader(n: nat)
    requires 1 <= n <= 128
    ensures UChar(n - 1) == n - 1
  {
  }

  lemma RawCounts<T>(pixels: seq<T>)
    ensures Packet<T>.Raw(pixels).Valid() <==> 1 <= |pixels| <= 128
    ensures Packet<T>.Raw(pixels).Pixels() == pixels && Packet<T>.Raw(pixels).Count() == |pixels|
  {
  }

  lemma SplitUniform(ps: seq<Packet<Pixel>>, comp: nat)
    requires ps != [] && Uniform(Expand(ps), comp)
    ensures Uniform(ps[0].Pixels(), comp) && Uniform(Expand(ps[1..]), comp)
  {
    var a, b := ps[0].Pixels(), Expand(ps[1..]);
    assert Expand(ps) == a + b;
    hide Expand, Packet.Pixels;
    forall i | 0 <= i < |a| ensures |a[i]| == comp { assert (a + b)[i] == a[i]; }
    forall i | 0 <= i < |b| ensures |b[i]| == comp { assert (a + b)[|a| + i] == b[i]; }
  }

  /** Reading well-formed packets gives their pixels. */
  lemma {:induction false} PacketsRoundTrip(ps: seq<Packet<Pixel>>, comp: nat, rest: seq<byte>)
    requires 1 <= comp <= 4 && AllValid(ps) && Uniform(Expand(ps), comp)
    ensures ReadPackets(AllBytes(ps) + rest, |Expand(ps)|, comp) == Some(Row(Expand(ps), rest))
  {
    if ps == [] {
      assert [] + rest == rest;
    } else {
      var p, qs := ps[0], ps[1..];
      SplitUniform(ps, comp);
      assert p.Valid() && AllValid(qs);
      PacketsRoundTrip(qs, comp, rest);
      assert Expand(ps) == p.Pixels() + Expand(qs);
      assert AllBytes(ps) == PacketBytes(p) + AllBytes(qs);
      hide Expand, AllBytes, ReadPackets, PacketBytes, Packet.Pixels, Packet.Count, Packet.Valid, AllValid, Uniform;
      JoinThree(PacketBytes(p), AllBytes(qs), rest);
      ReadPacket(p, AllBytes(qs) + rest, |Expand(ps)|, comp);
    }
  }

  // ----- whole files

  /** Pixel `i` of row `j` of `x` pixels, in the flat image. */
  function PixelAt(data: seq<byte>, x: nat, comp: nat, j: nat, i: nat): Pixel {
    var at := (j * x + i) * comp;
    if at + comp <= |data| then data[at..at + comp] else []
  }

  function RowOf(data: seq<byte>, x: nat, comp: nat, j: nat): (row: seq<Pixel>)
    ensures |row| == x
  {
    seq(x, i requires 0 <= i < x => PixelAt(data, x, comp, j, i))
  }

  lemma PixelInside(x: nat, y: nat, comp: nat, j: nat, i: nat)
    requires j < y && i < x
    ensures (j * x + i) * comp + comp <= x * y * comp
  {
    assert (j + 1) * x == j * x + x;
    MulMono(j + 1, y, x);
    assert y * x == x * y;
    MulMono(j * x + i + 1, x * y, comp);
    assert (j * x + i + 1) * comp == (j * x + i) * comp + comp;
  }

  lemma PixelAtLength(data: seq<byte>, x: nat, y: nat, comp: nat, j: nat, i: nat)
    requires |data| == x * y * comp && j < y && i < x
    ensures |PixelAt(data, x, comp, j, i)| == comp
  {
    hide *;
    PixelInside(x, y, comp, j, i);
    PixelTaken(data, x, comp, j, i);
  }

  lemma PixelTaken(data: seq<byte>, x: nat, comp: nat, j: nat, i: nat)
    requires (j * x + i) * comp + comp <= |data|
    ensures |PixelAt(data, x, comp, j, i)| == comp
  {
  }

  lemma RowUniform(data: seq<byte>, x: nat, y: nat, comp: nat, j: nat)
    requires |data| == x * y * comp && j < y
    ensures Uniform(RowOf(data, x, comp, j), comp)
  {
    hide PixelAt;
    forall i | 0 <= i < x ensures |RowOf(data, x, comp, j)[i]| == comp { PixelAtLength(data, x, y, comp, j, i); }
  }

  function RowBytes(row: seq<Pixel>, rle: bool): seq<byte> {
    if rle then AllBytes(PacketsFrom(row, 0)) else AllStored(row)
  }

  /** The image row written `n`-th: TGA starts at the bottom. */
  function RowIndex(y: nat, flip: bool, n: nat): nat
    requires n < y
  {
    if flip then n else y - 1 - n
  }

  /** The rows from the `n`-th written on. */
  function Body(data: seq<byte>, x: nat, y: nat, comp: nat, rle: bool, flip: bool, n: nat): seq<byte>
    requires n <= y
    decreases y - n
  {
    if n == y then []
    else RowBytes(RowOf(data, x, comp, RowIndex(y, flip, n)), rle) + Body(data, x, y, comp, rle, flip, n + 1)
  }

  function Word(v: nat): seq<byte> {
    [v % 256, v / 256 % 256]
  }

  function Unword(lo: byte, hi: byte): nat {
    (lo as nat) + 256 * (hi as nat)
  }

  function Format(comp: nat): nat {
    if (if HasAlpha(comp) == 1 then comp - 1 else comp) < 2 then 3 else 2
  }

  function Header(x: nat, y: nat, comp: nat, rle: bool): seq<byte> {
    [0, 0, Format(comp) + (if rle then 8 else 0)] + (Word(0) + Word(0) + [0]) +
        (Word(0) + Word(0) + Word(x) + Word(y)) +
    [UChar(comp * 8), UChar(HasAlpha(comp) * 8)]
  }

  function TgaFile(data: seq<byte>, x: nat, y: nat, comp: nat, rle: bool, flip: bool): seq<byte> {
    Header(x, y, comp, rle) + Body(data, x, y, comp, rle, flip, 0)
  }

  // ----- a reader of whole files

  /** An image as displayed: channels of colour and of alpha in each pixel, rows from the top. */
  datatype Image = Image(width: nat, height: nat, colours: nat, alpha: nat, rows: seq<seq<Pixel>>)

  function ReadRow(bytes: seq<byte>, width: nat, size: nat, rle: bool): Option<Row> {
    if rle then ReadPackets(bytes, width, size) else ReadPixels(bytes, width, size)
  }

  /** Rows in the order of the file; nothing may follow them. */
  function ReadRows(bytes: seq<byte>, width: nat, height: nat, size: nat, rle: bool): Option<seq<seq<Pixel>>>
    decreases height
  {
    if height == 0 then (if bytes == [] then Some([]) else None)
    else
      match ReadRow(bytes, width, size, rle)
      case None => None
      case Some(row) =>
        match ReadRows(row.rest, width, height - 1, size, rle)
        case None => None
        case Some(rows) => Some([row.pixels] + rows)
  }

  function Reverse<T>(s: seq<T>): (r: seq<T>)
    ensures |r| == |s| && forall i :: 0 <= i < |s| ==> r[i] == s[|s| - 1 - i]
  {
    seq(|s|, i requires 0 <= i < |s| => s[|s| - 1 - i])
  }

  /** Image types: 2 and 10 hold three colours, 3 and 11 one; 10 and 11 are compressed. */
  predicate KindFits(kind: nat, colours: nat) {
    (colours == 3 && (kind == 2 || kind == 10)) || (colours == 1 && (kind == 3 || kind == 11))
  }

  /**
   * A reader of images without identification and palette: byte 16 holds the bits of a pixel, the low half of byte 17
   * how many of them are alpha, and its bit 5 is set when the first row is the top one.
   */
  function ReadTga(bytes: seq<byte>): Option<Image> {
    if |bytes| < 18 || bytes[0] != 0 || bytes[1] != 0 then None
    else
      var kind, size, alpha := bytes[2], bytes[16] / 8, bytes[17] % 16 / 8;
      var width, height := Unword(bytes[12], bytes[13]), Unword(bytes[14], bytes[15]);
      if bytes[16] % 8 != 0 || bytes[17] % 8 != 0 || bytes[17] / 16 % 2 != 0 || bytes[17] >= 64 then None
      else if size < alpha || !KindFits(kind, size - alpha) then None
      else
        match ReadRows(bytes[18..], width, height, size, kind >= 10)
        case None => None
        case Some(rows) => Some(Image(width, height, size - alpha, alpha, if bytes[17] >= 32 then rows else Reverse(rows)))
  }

  /** The rows of the image in the order they are written. */
  function RowsFrom(data: seq<byte>, x: nat, y: nat, comp: nat, flip: bool, n: nat): seq<seq<Pixel>>
    requires n <= y
    decreases y - n
  {
    if n == y then [] else [RowOf(data, x, comp, RowIndex(y, flip, n))] + RowsFrom(data, x, y, comp, flip, n + 1)
  }

  lemma RowRoundTrip(row: seq<Pixel>, comp: nat, rle: bool, rest: seq<byte>)
    requires 1 <= comp <= 4 && Uniform(row, comp)
    ensures ReadRow(RowBytes(row, rle) + rest, |row|, comp, rle) == Some(Row(row, rest))
  {
    if rle {
      PacketsCover(row, 0);
      assert row[0..] == row;
      hide PacketsFrom, Expand, AllBytes, ReadPackets, ReadPixels, AllStored, Uniform, AllValid;
      PacketsRoundTrip(PacketsFrom(row, 0), comp, rest);
    } else {
      hide ReadPixels, AllStored, ReadPackets, AllBytes, PacketsFrom, Uniform;
      ReadAll(row, comp, rest);
    }
  }

  lemma {:induction false} BodyRoundTrip(data: seq<byte>, x: nat, y: nat, comp: nat, rle: bool, flip: bool, n: nat)
    requires n <= y && |data| == x * y * comp && 1 <= comp <= 4
    ensures ReadRows(Body(data, x, y, comp, rle, flip, n), x, y - n, comp, rle) ==
            Some(RowsFrom(data, x, y, comp, flip, n))
    decreases y - n
  {
    if n < y {
      var row := RowOf(data, x, comp, RowIndex(y, flip, n));
      RowUniform(data, x, y, comp, RowIndex(y, flip, n));
      var more := Body(data, x, y, comp, rle, flip, n + 1);
      BodyRoundTrip(data, x, y, comp, rle, flip, n + 1);
      RowRoundTrip(row, comp, rle, more);
      BodyStep(row, comp, rle, more, y - n);
      BodyIs(data, x, y, comp, rle, flip, n);
      hide *;
    }
  }

  lemma BodyIs(data: seq<byte>, x: nat, y: nat, comp: nat, rle: bool, flip: bool, n: nat)
    requires n < y
    ensures var row := RowOf(data, x, comp, RowIndex(y, flip, n));
            && Body(data, x, y, comp, rle, flip, n) == RowBytes(row, rle) + Body(data, x, y, comp, rle, flip, n + 1)
            && RowsFrom(data, x, y, comp, flip, n) == [row] + RowsFrom(data, x, y, comp, flip, n + 1)
  {
    hide RowOf, RowBytes, RowIndex;
  }

  lemma BodyStep(row: seq<Pixel>, comp: nat, rle: bool, more: seq<byte>, height: nat)
    requires height > 0 && ReadRow(RowBytes(row, rle) + more, |row|, comp, rle) == Some(Row(row, more))
    ensures ReadRows(RowBytes(row, rle) + more, |row|, height, comp, rle) ==
            match ReadRows(more, |row|, height - 1, comp, rle)
            case None => None
            case Some(rows) => Some([row] + rows)
  {
    hide RowBytes, ReadRow;
  }

  /** What a reader looks at in a header. */
  ghost predicate Fields(b: seq<byte>, width: nat, height: nat, comp: nat, rle: bool) {
    && |b| >= 18 && b[0] == 0 && b[1] == 0 && 1 <= comp <= 4 && b[16] == 8 * comp
    && b[17] == (if comp % 2 == 0 then 8 else 0)
    && b[2] == (if comp <= 2 then 3 else 2) + (if rle then 8 else 0)
    && Unword(b[12], b[13]) == width && Unword(b[14], b[15]) == height
  }

  lemma HeaderFields(x: nat, y: nat, comp: nat, rle: bool, body: seq<byte>)
    requires 1 <= comp <= 4
    ensures var b := Header(x, y, comp, rle) + body;
            Fields(b, x % 65536, y % 65536, comp, rle) && b[18..] == body
  {
    WordValue(x);
    WordValue(y);
    var b := Header(x, y, comp, rle) + body;
    assert |Header(x, y, comp, rle)| == 18;
    assert b[12] == x % 256 && b[13] == x / 256 % 256 && b[14] == y % 256 && b[15] == y / 256 % 256;
  }

  lemma WordValue(x: nat)
    ensures x % 256 + 256 * (x / 256 % 256) == x % 65536
  {
    var q, r := x / 256, x % 256;
    var s, t := q / 256, q % 256;
    assert x == 65536 * s + (256 * t + r);
    QuotientUnique(x, 65536, s, 256 * t + r);
  }

  /** The rows as displayed: those of the image, upside down when flipping. */
  function ImageRows(data: seq<byte>, x: nat, y: nat, comp: nat, flip: bool): (r: seq<seq<Pixel>>)
    ensures |r| == y
  {
    seq(y, j requires 0 <= j < y => RowOf(data, x, comp, if flip then y - 1 - j else j))
  }

  lemma RowsDisplayed(data: seq<byte>, x: nat, y: nat, comp: nat, flip: bool)
    ensures Reverse(RowsFrom(data, x, y, comp, flip, 0)) == ImageRows(data, x, y, comp, flip)
  {
    hide RowOf, RowsFrom;
    var rows := RowsFrom(data, x, y, comp, flip, 0);
    if y == 0 {
      NoRows(data, x, comp, flip);
    } else {
      RowsOrder(data, x, y, comp, flip, 0, 0);
      forall j | 0 <= j < y ensures Reverse(rows)[j] == ImageRows(data, x, y, comp, flip)[j] {
        RowsOrder(data, x, y, comp, flip, 0, y - 1 - j);
      }
    }
  }

  lemma NoRows(data: seq<byte>, x: nat, comp: nat, flip: bool)
    ensures RowsFrom(data, x, 0, comp, flip, 0) == []
  {
  }

  /**
   * A TGA file reads back as the image, every pixel with its one or three colours and its alpha, exactly when both
   * sides fit the 16 bits the header has for them.
   */
  lemma TgaRoundTrip(data: seq<byte>, x: nat, y: nat, comp: nat, rle: bool, flip: bool)
    requires |data| == x * y * comp && 1 <= comp <= 4
    ensures ReadTga(TgaFile(data, x, y, comp, rle, flip)) ==
            Some(Image(x, y, if comp <= 2 then 1 else 3, if comp % 2 == 0 then 1 else 0,
                       ImageRows(data, x, y, comp, flip))) <==>
            x < 65536 && y < 65536
  {
    hide *;
    var body := Body(data, x, y, comp, rle, flip, 0);
    var file := TgaFile(data, x, y, comp, rle, flip);
    FileIs(data, x, y, comp, rle, flip);
    HeaderFields(x, y, comp, rle, body);
    BodyRoundTrip(data, x, y, comp, rle, flip, 0);
    RowsDisplayed(data, x, y, comp, flip);
    ReadFields(file, x % 65536, y % 65536, comp, rle, body);
  }

  lemma FileIs(data: seq<byte>, x: nat, y: nat, comp: nat, rle: bool, flip: bool)
    ensures TgaFile(data, x, y, comp, rle, flip) == Header(x, y, comp, rle) + Body(data, x, y, comp, rle, flip, 0)
  {
    hide Header, Body;
  }

  lemma ReadFields(b: seq<byte>, width: nat, height: nat, comp: nat, rle: bool, body: seq<byte>)
    requires Fields(b, width, height, comp, rle) && b[18..] == body
    ensures ReadTga(b) == match ReadRows(body, width, height, comp, rle)
                          case None => None
                          case Some(rows) => Some(Image(width, height, if comp <= 2 then 1 else 3,
                                                        if comp % 2 == 0 then 1 else 0, Reverse(rows)))
  {
    hide ReadRows, Reverse, Unword;
    assert b[16] % 8 == 0 && b[16] / 8 == comp && b[17] % 8 == 0 && b[17] / 16 == 0;
    assert b[17] % 16 / 8 == if comp % 2 == 0 then 1 else 0;
    KindOf(comp, rle);
    hide KindFits;
  }

  lemma KindOf(comp: nat, rle: bool)
    requires 1 <= comp <= 4
    ensures var kind := (if comp <= 2 then 3 else 2) + (if rle then 8 else 0);
            (kind >= 10 <==> rle) && KindFits(kind, comp - (if comp % 2 == 0 then 1 else 0))
  {
  }

  /** The rows written are those of the image, upside down unless flipped. */
  lemma {:induction false} RowsOrder(data: seq<byte>, x: nat, y: nat, comp: nat, flip: bool, n: nat, m: nat)
    requires n <= m < y
    ensures |RowsFrom(data, x, y, comp, flip, n)| == y - n
    ensures RowsFrom(data, x, y, comp, flip, n)[m - n] == RowOf(data, x, comp, if flip then m else y - 1 - m)
    decreases y - n
  {
    hide RowOf;
    if m == n {
      if n + 1 < y { RowsOrder(data, x, y, comp, flip, n + 1, n + 1); }
    } else {
      RowsOrder(data, x, y, comp, flip, n + 1, m);
    }
  }

  // ----- the buffered writer

  class WriteContext {
    const buffer: array<byte>
    var used: nat
    var sent: seq<byte>

    ghost predicate Valid()
      reads this
    {
      buffer.Length == BUFFER_SIZE && used <= BUFFER_SIZE
    }

    /** Everything written, whether or not it has been delivered. */
    ghost function Stream(): seq<byte>
      reads this, buffer
      requires Valid()
    {
      sent + buffer[..used]
    }

    constructor ()
      ensures Valid() && fresh(buffer) && used == 0 && sent == []
    {
      buffer, used, sent := new byte[BUFFER_SIZE](_ => 0), 0, [];
    }

    /** stbiw__write_flush */
    method Flush()
      requires Valid()
      modifies this`used, this`sent
      ensures Valid() && used == 0 && sent == old(Stream()) == Stream()
    {
      if used != 0 {
        sent := sent + buffer[..used];
        used := 0;
      }
    }

    /** A direct call of the sink, allowed while nothing is buffered. */
    method Send(bytes: seq<byte>)
      requires Valid() && used == 0
      modifies this`sent
      ensures Valid() && Stream() == old(Stream()) + bytes
    {
      sent := sent + bytes;
    }

    /** stbiw__write1 */
    method Write1(a: byte)
      requires Valid()
      modifies this`used, this`sent, buffer
      ensures Valid() && Stream() == old(Stream()) + [a]
    {
      if used + 1 > BUFFER_SIZE { Flush(); }
      buffer[used] := a;
      used := used + 1;
    }

    /** stbiw__write3 */
    method Write3(a: byte, b: byte, c: byte)
      requires Valid()
      modifies this`used, this`sent, buffer
      ensures Valid() && Stream() == old(Stream()) + [a, b, c]
    {
      if used + 3 > BUFFER_SIZE { Flush(); }
      var n := used;
      used := n + 3;
      buffer[n] := a;
      buffer[n + 1] := b;
      buffer[n + 2] := c;
    }

    /** stbiw__write_pixel */
    method WritePixel(rgbDir: int, comp: nat, writeAlpha: int, expandMono: bool, d: Pixel)
      requires Valid() && (rgbDir == 1 || rgbDir == -1) && |d| == comp >= 1
      modifies this`used, this`sent, buffer
      ensures Valid() && Stream() == old(Stream()) + PixelBytes(rgbDir, comp, writeAlpha, expandMono, d)
    {
      hide Channels;
      if writeAlpha < 0 { Write1(d[comp - 1]); }
      WriteChannels(rgbDir, comp, writeAlpha, expandMono, d);
      if writeAlpha > 0 { Write1(d[comp - 1]); }
    }

    method WriteChannels(rgbDir: int, comp: nat, writeAlpha: int, expandMono: bool, d: Pixel)
      requires Valid() && (rgbDir == 1 || rgbDir == -1) && |d| == comp >= 1
      modifies this`used, this`sent, buffer
      ensures Valid() && Stream() == old(Stream()) + Channels(rgbDir, comp, writeAlpha, expandMono, d)
    {
      hide WriteContext.Stream, Composite;
      if comp == 1 || comp == 2 {
        if expandMono { Write3(d[0], d[0], d[0]); } else { Write1(d[0]); }
      } else if comp == 4 && writeAlpha == 0 {
        var px := [Composite(255, d[0], d[3]), Composite(0, d[1], d[3]), Composite(255, d[2], d[3])];
        Write3(px[1 - rgbDir], px[1], px[1 + rgbDir]);
      } else if comp == 4 || comp == 3 {
        Write3(d[1 - rgbDir], d[1], d[1 + rgbDir]);
      }
    }

    /** The pixels of a raw packet, or of an uncompressed row. */
    method WriteStored(row: seq<Pixel>, comp: nat)
      requires Valid() && Uniform(row, comp) && comp >= 1
      modifies this`used, this`sent, buffer
      ensures Valid() && Stream() == old(Stream()) + AllStored(row)
    {
      hide *;
      var k := 0;
      NothingStored(row, Stream());
      while k < |row|
        invariant k <= |row| && Valid() && Stream() == old(Stream()) + AllStored(row[..k])
        modifies this`used, this`sent, buffer
      {
        AllStoredNext(row, k, comp, old(Stream()));
        WritePixel(-1, comp, HasAlpha(comp), false, row[k]);
        k := k + 1;
      }
      assert row[..k] == row;
    }

    /** One row in packets. */
    method WritePackets(row: seq<Pixel>, comp: nat)
      requires Valid() && Uniform(row, comp) && comp >= 1
      modifies this`used, this`sent, buffer
      ensures Valid() && Stream() == old(Stream()) + AllBytes(PacketsFrom(row, 0))
    {
      hide *;
      var i := 0;
      while i < |row|
        invariant i <= |row| && Valid()
        invariant Stream() + AllBytes(PacketsFrom(row, i)) == old(Stream()) + AllBytes(PacketsFrom(row, 0))
        modifies this`used, this`sent, buffer
      {
        ghost var was := Stream();
        var diff, len := ScanPacket(row, i);
        WriteHeader(diff, len);
        if diff {
          PartUniform(row, i, len, comp);
          WriteStored(row[i..i + len], comp);
        } else {
          StoredIs(row, i, comp);
          WritePixel(-1, comp, HasAlpha(comp), false, row[i]);
        }
        BytesNext(row, i, comp, was, Stream());
        i := i + len;
      }
      NoPackets(row, Stream());
    }

    method WriteHeader(diff: bool, len: nat)
      requires Valid()
      modifies this`used, this`sent, buffer
      ensures Valid() && Stream() == old(Stream()) + [UChar(if diff then len - 1 else len - 129)]
    {
      if diff { Write1(UChar(len - 1)); } else { Write1(UChar(len - 129)); }
    }

    /** stbi_write_tga_core: refuses negative sizes, otherwise writes the file. */
    method WriteTga(x: int, y: int, comp: nat, data: seq<byte>, rle: bool, flip: bool) returns (ok: bool)
      requires Valid() && used == 0 && comp >= 1 && (x >= 0 && y >= 0 ==> |data| == x * y * comp)
      modifies this`used, this`sent, buffer
      ensures Valid() && used == 0 && (ok <==> x >= 0 && y >= 0)
      ensures Stream() == old(Stream()) + if ok then TgaFile(data, x, y, comp, rle, flip) else []
    {
      hide WriteContext.Stream, Header, Body, RowBytes, RowOf;
      if y < 0 || x < 0 { return false; }
      Send(Header(x, y, comp, rle));
      if rle {
        WriteRleRows(x, y, comp, data, flip);
      } else {
        WriteRawRows(x, y, comp, data, flip);
      }
      JoinThree(old(Stream()), Header(x, y, comp, rle), Body(data, x, y, comp, rle, flip, 0));
      ok := true;
    }

    /** The rows of a compressed file; the buffer is flushed once, at the end. */
    method WriteRleRows(x: nat, y: nat, comp: nat, data: seq<byte>, flip: bool)
      requires Valid() && used == 0 && comp >= 1 && |data| == x * y * comp
      modifies this`used, this`sent, buffer
      ensures Valid() && used == 0 && Stream() == old(Stream()) + Body(data, x, y, comp, true, flip, 0)
    {
      hide *;
      var j, jend, jdir: int := if flip then 0 else y - 1, if flip then y else -1, if flip then 1 else -1;
      ghost var n := 0;
      while j != jend
        invariant n <= y && Valid() && j == (if flip then n else y - 1 - n) && (j != jend <==> n < y)
        invariant Stream() + Body(data, x, y, comp, true, flip, n) ==
                  old(Stream()) + Body(data, x, y, comp, true, flip, 0)
        decreases y - n
        modifies this`used, this`sent, buffer
      {
        ghost var was := Stream();
        RowIndexIs(y, flip, n, j);
        RowUniform(data, x, y, comp, j);
        WritePackets(RowOf(data, x, comp, j), comp);
        RowBytesAre(RowOf(data, x, comp, j));
        BodyNext(data, x, y, comp, true, flip, n, was, Stream());
        j, n := j + jdir, n + 1;
      }
      BodyEnd(data, x, y, comp, true, flip, Stream());
      Flush();
    }

    /** stbiw__write_pixels as TGA calls it: bottom up, no padding, a flush after every row. */
    method WriteRawRows(x: nat, y: nat, comp: nat, data: seq<byte>, flip: bool)
      requires Valid() && used == 0 && comp >= 1 && |data| == x * y * comp
      modifies this`used, this`sent, buffer
      ensures Valid() && used == 0 && Stream() == old(Stream()) + Body(data, x, y, comp, false, flip, 0)
    {
      hide *;
      var j, jend, vdir: int := if flip then 0 else y - 1, if flip then y else -1, if flip then 1 else -1;
      ghost var n := 0;
      while j != jend
        invariant n <= y && Valid() && used == 0 && j == (if flip then n else y - 1 - n) && (j != jend <==> n < y)
        invariant Stream() + Body(data, x, y, comp, false, flip, n) ==
                  old(Stream()) + Body(data, x, y, comp, false, flip, 0)
        decreases y - n
        modifies this`used, this`sent, buffer
      {
        ghost var was := Stream();
        RowIndexIs(y, flip, n, j);
        RowUniform(data, x, y, comp, j);
        WriteStored(RowOf(data, x, comp, j), comp);
        RowBytesAre(RowOf(data, x, comp, j));
        BodyNext(data, x, y, comp, false, flip, n, was, Stream());
        Flush();
        j, n := j + vdir, n + 1;
      }
      BodyEnd(data, x, y, comp, false, flip, Stream());
    }
  }

  lemma NothingStored(row: seq<Pixel>, stream: seq<byte>)
    ensures stream + AllStored(row[..0]) == stream
  {
    assert row[..0] == [];
  }

  lemma AllStoredNext(row: seq<Pixel>, k: nat, comp: nat, stream: seq<byte>)
    requires k < |row| && Uniform(row, comp) && comp >= 1
    ensures |row[k]| == comp
    ensures stream + AllStored(row[..k + 1]) ==
            (stream + AllStored(row[..k])) + PixelBytes(-1, comp, HasAlpha(comp), false, row[k])
  {
    hide PixelBytes, HasAlpha;
    assert row[..k + 1][..k] == row[..k];
    assert Stored(row[k]) == PixelBytes(-1, comp, HasAlpha(comp), false, row[k]);
    JoinThree(stream, AllStored(row[..k]), Stored(row[k]));
  }

  lemma StoredIs(row: seq<Pixel>, i: nat, comp: nat)
    requires i < |row| && Uniform(row, comp) && comp >= 1
    ensures |row[i]| == comp && Stored(row[i]) == PixelBytes(-1, comp, HasAlpha(comp), false, row[i])
  {
    hide PixelBytes, HasAlpha;
  }

  lemma PartUniform(row: seq<Pixel>, i: nat, len: nat, comp: nat)
    requires Uniform(row, comp) && i + len <= |row|
    ensures Uniform(row[i..i + len], comp)
  {
  }

  lemma NoPackets(row: seq<Pixel>, now: seq<byte>)
    ensures now + AllBytes(PacketsFrom(row, |row|)) == now
  {
  }

  lemma BytesNext(row: seq<Pixel>, i: nat, comp: nat, was: seq<byte>, now: seq<byte>)
    requires i < |row|
    requires var len := PacketLength(row, i);
             now == if IsRun(row, i) then (was + [UChar(len - 129)]) + Stored(row[i])
                    else (was + [UChar(len - 1)]) + AllStored(row[i..i + len])
    ensures now + AllBytes(PacketsFrom(row, i + PacketLength(row, i))) == was + AllBytes(PacketsFrom(row, i))
  {
    hide *;
    var len := PacketLength(row, i);
    PacketsUnfold(row, i);
    PacketAtBytes(row, i);
    AllBytesFront(PacketAt(row, i), PacketsFrom(row, i + len));
    BytesJoin(was, now, PacketBytes(PacketAt(row, i)), AllBytes(PacketsFrom(row, i + len)), IsRun(row, i),
              [UChar(len as int - 129)], Stored(row[i]), [UChar(len - 1)], AllStored(row[i..i + len]));
  }

  lemma BytesJoin(was: seq<byte>, now: seq<byte>, packet: seq<byte>, more: seq<byte>, run: bool,
                  a: seq<byte>, b: seq<byte>, c: seq<byte>, d: seq<byte>)
    requires now == if run then (was + a) + b else (was + c) + d
    requires packet == if run then a + b else c + d
    ensures now + more == was + (packet + more)
  {
  }

  lemma PacketAtBytes(row: seq<Pixel>, i: nat)
    requires i < |row|
    ensures var len := PacketLength(row, i);
            && PacketAt(row, i).Count() == len
            && PacketBytes(PacketAt(row, i)) ==
               if IsRun(row, i) then [UChar(len - 129)] + Stored(row[i])
               else [UChar(len - 1)] + AllStored(row[i..i + len])
  {
    if !IsRun(row, i) { RawBytesAre(row[i..i + PacketLength(row, i)]); }
    hide Stored, AllStored, UChar, PacketLength, RawBytes;
  }

  lemma AllBytesFront(p: Packet<Pixel>, ps: seq<Packet<Pixel>>)
    ensures AllBytes([p] + ps) == PacketBytes(p) + AllBytes(ps)
  {
    hide PacketBytes;
    assert ([p] + ps)[1..] == ps;
  }

  lemma RowIndexIs(y: nat, flip: bool, n: nat, j: int)
    requires n < y && j == if flip then n else y - 1 - n
    ensures 0 <= j < y && RowIndex(y, flip, n) == j
  {
  }

  lemma RowBytesAre(row: seq<Pixel>)
    ensures RowBytes(row, true) == AllBytes(PacketsFrom(row, 0)) && RowBytes(row, false) == AllStored(row)
  {
    hide AllBytes, PacketsFrom, AllStored;
  }

  lemma BodyNext(data: seq<byte>, x: nat, y: nat, comp: nat, rle: bool, flip: bool, n: nat, was: seq<byte>,
      now: seq<byte>)
    requires n < y && now == was + RowBytes(RowOf(data, x, comp, RowIndex(y, flip, n)), rle)
    ensures now + Body(data, x, y, comp, rle, flip, n + 1) == was + Body(data, x, y, comp, rle, flip, n)
  {
    hide RowBytes, RowOf, RowIndex;
    JoinThree(was, RowBytes(RowOf(data, x, comp, RowIndex(y, flip, n)), rle), Body(data, x, y, comp, rle, flip, n + 1));
  }

  lemma BodyEnd(data: seq<byte>, x: nat, y: nat, comp: nat, rle: bool, flip: bool, now: seq<byte>)
    ensures now + Body(data, x, y, comp, rle, flip, y) == now
  {
  }

  /** The two scans: how long the packet at pixel `i` is, and whether its pixels differ. */
  method ScanPacket(row: seq<Pixel>, i: nat) returns (diff: bool, len: nat)
    requires i < |row|
    ensures len == PacketLength(row, i) && diff == !IsRun(row, i)
  {
    diff, len := true, 1;
    if i < |row| - 1 {
      len := 2;
      diff := row[i] != row[i + 1];
      var k := i + 2;
      if diff {
        var prev := i;
        while k < |row| && len < 128
          invariant i + 2 <= k <= |row| && len == k - i <= 128 && prev == k - 2
          invariant RawLength(row, i, i + 2) == RawLength(row, i, k)
        {
          if row[prev] != row[k] {
            prev, len, k := prev + 1, len + 1, k + 1;
          } else {
            len := len - 1;
            break;
          }
        }
      } else {
        while k < |row| && len < 128
          invariant i + 2 <= k <= |row| && len == k - i <= 128 && forall j :: i <= j < k ==> row[j] == row[i]
          invariant RunLength(row, i, i + 2) == RunLength(row, i, k)
        {
          if row[i] == row[k] {
            len, k := len + 1, k + 1;
          } else {
            break;
          }
        }
      }
    }
  }
}
