/** PNG scanline filtering: the encoder's line filter and filter choice, against section 6 of RFC 2083. */
module PngFilter {
  import opened Bits

  // ----- section 6: filtering and its inverse

  /** Section 6.6, as the expression it gives. */
  function PaethPredictor(a: byte, b: byte, c: byte): byte {
    var p: int := a + b - c;
    if Abs(p - a) <= Abs(p - b) && Abs(p - a) <= Abs(p - c) then a
    else if Abs(p - b) <= Abs(p - c) then b
    else c
  }

  /** `r` is the neighbour nearest to left + above - upper left; of equally near ones left comes first, then above. */
  predicate IsNearest(r: byte, a: byte, b: byte, c: byte) {
    var p: int := a + b - c;
    && (r == a || r == b || r == c)
    && Abs(p - r) <= Abs(p - a) && Abs(p - r) <= Abs(p - b) && Abs(p - r) <= Abs(p - c)
    && (Abs(p - a) <= Abs(p - r) ==> r == a)
    && (Abs(p - b) <= Abs(p - r) && r != a ==> r == b)
  }

  /** That neighbour is what the predictor computes, and nothing else is. */
  lemma PaethNearest(a: byte, b: byte, c: byte, r: byte)
    ensures IsNearest(r, a, b, c) <==> r == PaethPredictor(a, b, c)
  {
  }

  /** The prediction from the bytes to the left, above, and to the upper left. */
  function Predict(filter: nat, a: byte, b: byte, c: byte): byte {
    match filter
    case 1 => a
    case 2 => b
    case 3 => (a + b) / 2
    case 4 => PaethPredictor(a, b, c)
    case _ => 0
  }

  /** The five predictions: nothing, left, above, the average rounded down, and the nearest of three. */
  lemma Predictions(a: byte, b: byte, c: byte)
    ensures Predict(0, a, b, c) == 0 && Predict(1, a, b, c) == a && Predict(2, a, b, c) == b
    ensures a + b - 1 <= 2 * Predict(3, a, b, c) <= a + b
    ensures IsNearest(Predict(4, a, b, c), a, b, c)
  {
    PaethNearest(a, b, c, PaethPredictor(a, b, c));
    hide PaethPredictor, IsNearest;
  }

  /** The byte one pixel to the left; zero before the first pixel. */
  function LeftOf(s: seq<byte>, n: nat, i: nat): byte
    requires i <= |s|
  {
    if 0 < n <= i then s[i - n] else 0
  }

  function FilterByte(filter: nat, row: seq<byte>, prior: seq<byte>, n: nat, i: nat): byte
    requires i < |row| == |prior|
  {
    var p: int := Predict(filter, LeftOf(row, n, i), prior[i], LeftOf(prior, n, i));
    (row[i] - p) % 256
  }

  function Filter(filter: nat, row: seq<byte>, prior: seq<byte>, n: nat): (r: seq<byte>)
    requires |row| == |prior|
    ensures |r| == |row| && forall i :: 0 <= i < |row| ==> r[i] == FilterByte(filter, row, prior, n, i)
  {
    seq(|row|, i requires 0 <= i < |row| => FilterByte(filter, row, prior, n, i))
  }

  /** The first `k` bytes reconstructed from a filtered line and the reconstructed line above it. */
  function Unfilter(filter: nat, line: seq<byte>, prior: seq<byte>, n: nat, k: nat): (r: seq<byte>)
    requires k <= |line| == |prior|
    ensures |r| == k
  {
    if k == 0 then []
    else
      var r := Unfilter(filter, line, prior, n, k - 1);
      r + [(line[k - 1] + Predict(filter, LeftOf(r, n, k - 1), prior[k - 1], LeftOf(prior, n, k - 1))) % 256]
  }

  lemma ModCancel(x: byte, p: byte)
    ensures (((x as int) - p) % 256 + p) % 256 == x
  {
    if x >= p {
    } else {
      var d: int := x - p;
      assert d % 256 == d + 256 by { QuotientUnique(d, 256, -1, d + 256); }
    }
  }

  /** Whatever the filter, the line comes back. */
  lemma {:induction false} UnfilterRestores(filter: nat, row: seq<byte>, prior: seq<byte>, n: nat, k: nat)
    requires k <= |row| == |prior|
    ensures Unfilter(filter, Filter(filter, row, prior, n), prior, n, k) == row[..k]
  {
    hide Predict;
    if k > 0 {
      UnfilterRestores(filter, row, prior, n, k - 1);
      var p := Predict(filter, LeftOf(row, n, k - 1), prior[k - 1], LeftOf(prior, n, k - 1));
      ModCancel(row[k - 1], p);
      assert LeftOf(row[..k - 1], n, k - 1) == LeftOf(row, n, k - 1);
      assert row[..k] == row[..k - 1] + [row[k - 1]];
    }
  }

  function ZeroRow(w: nat): (r: seq<byte>)
    ensures |r| == w && forall i :: 0 <= i < w ==> r[i] == 0
  {
    seq(w, _ => 0)
  }

  // ----- the image the encoder reads

  /** Row `j` starts `j` strides, which may be negative, from the origin. */
  datatype Image = Image(pixels: seq<byte>, origin: nat, stride: int, width: nat, height: nat, comp: nat, flip: bool) {
    function RowBytes(): nat {
      width * comp
    }

    function RowStart(j: int): int {
      origin + j * stride
    }

    /** Every row lies inside the pixel data; rows may be further apart than their length. */
    ghost predicate Valid() {
      && 1 <= comp <= 4
      && forall j :: 0 <= j < height ==> 0 <= RowStart(j) && RowStart(j) + RowBytes() <= |pixels|
    }

    /** Where output row `y` starts: bottom-up when flipping. */
    function Start(y: nat): nat
      requires Valid() && y < height
    {
      RowStart(if flip then height - 1 - y else y)
    }

    function Row(y: nat): (r: seq<byte>)
      requires Valid() && y < height
      ensures |r| == RowBytes()
    {
      var s := Start(y);
      assert RowStart(if flip then height - 1 - y else y) + RowBytes() <= |pixels|;
      pixels[s..s + RowBytes()]
    }

    /** The row above, or zeros. */
    function Prior(y: nat): (r: seq<byte>)
      requires Valid() && y < height
      ensures |r| == RowBytes()
    {
      if y == 0 then ZeroRow(RowBytes()) else Row(y - 1)
    }
  }

  // ----- stbiw__encode_png_line

  /** stbiw__paeth */
  method Paeth(a: byte, b: byte, c: byte) returns (r: byte)
    ensures r == PaethPredictor(a, b, c) && IsNearest(r, a, b, c)
  {
    var p: int := a + b - c;
    var pa, pb, pc := Abs(p - a), Abs(p - b), Abs(p - c);
    if pa <= pb && pa <= pc { return a; }
    if pb <= pc { return b; }
    return c;
  }

  /** The row above is one signed stride away, flipped or not, and inside the pixel data. */
  lemma RowAbove(img: Image, y: nat)
    requires img.Valid() && 0 < y < img.height
    ensures var signedStride: int := if img.flip then -1 * img.stride else img.stride;
            && img.Start(y) - signedStride == img.Start(y - 1)
            && 0 <= img.Start(y) - signedStride && img.Start(y) - signedStride + img.RowBytes() <= |img.pixels|
  {
    var s: int, h: int := img.stride, img.height;
    assert img.RowStart(if img.flip then h - 1 - (y - 1) else y - 1) + img.RowBytes() <= |img.pixels|;
    if img.flip {
      assert (h - 1 - y) * s + s == (h - 1 - (y - 1)) * s;
    } else {
      assert y * s - s == (y - 1) * s;
    }
  }

  /** The filter that line type `t` implements: 5 and 6 are average and Paeth with nothing above. */
  function FilterOf(t: nat): nat {
    if t == 5 then 3 else if t == 6 then 4 else t
  }

  /** mapping[] and firstmap[] */
  function TypeOf(filter: nat, first: bool): (t: nat)
    requires filter < 5
    ensures first ==> t in {0, 1, 5, 6}
    ensures !first ==> t == filter
  {
    if !first then filter else [0, 1, 0, 5, 6][filter]
  }

  /** A byte of the first pixel, which has nothing to its left. */
  method EncodeFirst(t: nat, x: byte, up: byte) returns (r: byte)
    requires 1 <= t <= 6 && (t > 4 ==> up == 0)
    ensures r == ((x as int) - Predict(FilterOf(t), 0, up, 0)) % 256
  {
    var v: int := x;
    match t {
      case 1 => r := v % 256;
      case 2 => r := (v - up) % 256;
      case 3 => r := (v - up / 2) % 256;
      case 4 => var p := Paeth(0, up, 0); r := (v - p) % 256;
      case 5 => r := v % 256;
      case _ => r := v % 256;
    }
  }

  /** Any later byte. */
  method EncodeRest(t: nat, x: byte, left: byte, up: byte, upleft: byte) returns (r: byte)
    requires 1 <= t <= 6 && (t > 4 ==> up == 0 && upleft == 0)
    ensures r == ((x as int) - Predict(FilterOf(t), left, up, upleft)) % 256
  {
    hide PaethPredictor;
    var v: int := x;
    match t {
      case 1 => r := (v - left) % 256;
      case 2 => r := (v - up) % 256;
      case 3 => r := (v - (left + up) / 2) % 256;
      case 4 => var p := Paeth(left, up, upleft); r := (v - p) % 256;
      case 5 => r := (v - left / 2) % 256;
      case _ => var p := Paeth(left, 0, 0); r := (v - p) % 256;
    }
  }

  /** A filter that looks only upwards changes nothing on the first row. */
  lemma FirstRowType(filter: nat, row: seq<byte>, prior: seq<byte>, n: nat, i: nat)
    requires filter < 5 && i < |row| == |prior| && forall k :: 0 <= k < |prior| ==> prior[k] == 0
    ensures FilterByte(FilterOf(TypeOf(filter, true)), row, prior, n, i) == FilterByte(filter, row, prior, n, i)
  {
  }

  /** How the row at `z` and the row at `above` are found in the pixel data; nothing is read above the first row. */
  ghost predicate Located(pixels: seq<byte>, z: nat, above: int, first: bool, row: seq<byte>, prior: seq<byte>) {
    && |row| == |prior| && z + |row| <= |pixels|
    && (forall k :: 0 <= k < |row| ==> pixels[z + k] == row[k])
    && (first ==> forall k :: 0 <= k < |row| ==> prior[k] == 0)
    && (!first ==> above >= 0 && above + |row| <= |pixels|
                   && forall k :: 0 <= k < |row| ==> pixels[above + k] == prior[k])
  }

  /** The loops of stbiw__encode_png_line: one for the first pixel, one for the rest. */
  method EncodeTyped(pixels: seq<byte>, z: nat, above: int, first: bool, t: nat, n: nat, line_buffer: array<byte>,
                     ghost row: seq<byte>, ghost prior: seq<byte>)
    requires t <= 6 && (first ==> t in {0, 1, 5, 6}) && (!first ==> t < 5) && 0 < n && line_buffer.Length == |row|
    requires t != 0 ==> n <= |row|
    requires Located(pixels, z, above, first, row, prior)
    modifies line_buffer
    ensures forall k :: 0 <= k < |row| ==> line_buffer[k] == FilterByte(FilterOf(t), row, prior, n, k)
  {
    hide Predict;
    var w := line_buffer.Length;
    if t == 0 {
      forall i | 0 <= i < w { line_buffer[i] := pixels[z + i]; }
      forall k | 0 <= k < w ensures line_buffer[k] == FilterByte(FilterOf(t), row, prior, n, k) {
        PredictNone(row[k], LeftOf(row, n, k), prior[k], LeftOf(prior, n, k));
      }
      return;
    }
    var i: nat := 0;
    while i < n
      invariant i <= n
      invariant forall k :: 0 <= k < i ==> line_buffer[k] == FilterByte(FilterOf(t), row, prior, n, k)
    {
      var up: byte := if first then 0 else pixels[above + i];
      var r := EncodeFirst(t, pixels[z + i], up);
      line_buffer[i] := r;
      assert line_buffer[i] == FilterByte(FilterOf(t), row, prior, n, i);
      i := i + 1;
    }
    while i < w
      invariant n <= i <= w
      invariant forall k :: 0 <= k < i ==> line_buffer[k] == FilterByte(FilterOf(t), row, prior, n, k)
    {
      var up: byte := if first then 0 else pixels[above + i];
      var upleft: byte := if first then 0 else pixels[above + (i - n)];
      var r := EncodeRest(t, pixels[z + i], pixels[z + (i - n)], up, upleft);
      line_buffer[i] := r;
      assert line_buffer[i] == FilterByte(FilterOf(t), row, prior, n, i);
      i := i + 1;
    }
  }

  lemma PredictNone(x: byte, a: byte, b: byte, c: byte)
    ensures ((x as int) - Predict(0, a, b, c)) % 256 == x
  {
  }

  lemma RowLocated(img: Image, y: nat)
    requires img.Valid() && y < img.height
    ensures var signedStride: int := if img.flip then -1 * img.stride else img.stride;
            Located(img.pixels, img.Start(y), img.Start(y) - signedStride, y == 0, img.Row(y), img.Prior(y))
  {
    assert |img.Row(y)| == img.RowBytes();
    if y > 0 {
      RowAbove(img, y);
      assert |img.Row(y - 1)| == img.RowBytes();
    }
  }

  /** The loop over the first pixel writes as many bytes as a pixel has, the line buffer holding those of a row. */
  predicate Encodable(img: Image, y: nat, filter: nat) {
    filter < 5 && (TypeOf(filter, y == 0) == 0 || img.comp <= img.RowBytes())
  }

  /** They fit unless the image has no columns, and then only for line type 0, which copies. */
  lemma EncodableExactly(img: Image, y: nat, filter: nat)
    requires 1 <= img.comp && filter < 5
    ensures Encodable(img, y, filter) <==> img.width > 0 || filter == 0 || (y == 0 && filter == 2)
  {
    if img.width > 0 { MulMono(1, img.width, img.comp); }
  }

  /** stbiw__encode_png_line: filters row `y` into the line buffer. */
  method EncodeLine(img: Image, y: nat, filter: nat, line_buffer: array<byte>)
    requires img.Valid() && y < img.height && Encodable(img, y, filter) && line_buffer.Length == img.RowBytes()
    modifies line_buffer
    ensures line_buffer[..] == Filter(filter, img.Row(y), img.Prior(y), img.comp)
  {
    hide FilterByte, Predict, Located;
    var t := TypeOf(filter, y == 0);
    var z := img.Start(y);
    var signedStride: int := if img.flip then -1 * img.stride else img.stride;
    ghost var row, prior := img.Row(y), img.Prior(y);
    RowLocated(img, y);
    EncodeTyped(img.pixels, z, z - signedStride, y == 0, t, img.comp, line_buffer, row, prior);
    if y == 0 {
      forall k | 0 <= k < |row| ensures line_buffer[k] == FilterByte(filter, row, prior, img.comp, k) {
        FirstRowType(filter, row, prior, img.comp, k);
      }
    }
  }
}
