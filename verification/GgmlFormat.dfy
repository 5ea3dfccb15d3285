/** GGML, GGMF and GGJT model files: what the loader of the converter computes, offset by offset. */
module GgmlFormat {
  import opened Bits

  datatype Error =
    | AlreadyGguf | BadMagic | BadVersion(version: nat) | BadFtype(ftype: nat) | NotEligible
    | ShortRead | AbsurdLength | BadDimensions | UnknownType | MissingFeedForward | OutOfFuel

  datatype Result<+T> = Ok(value: T) | Err(error: Error)

  // ----- Python slices and struct.unpack

  function Bound(i: int, n: nat): (r: nat)
    ensures r <= n
  {
    if i < 0 then (if i + n < 0 then 0 else i + n) else if i > n then n else i
  }

  /** data[lo:hi]; bounds are clipped, negative ones count from the end. */
  function Slice(data: seq<byte>, lo: int, hi: int): seq<byte> {
    var a, b := Bound(lo, |data|), Bound(hi, |data|);
    if a < b then data[a..b] else []
  }

  /** A little-endian 32-bit word. */
  function Word(b: seq<byte>): nat
    requires |b| == 4
  {
    (b[0] as nat) + 256 * (b[1] as nat) + 65536 * (b[2] as nat) + 16777216 * (b[3] as nat)
  }

  function LE32(v: nat): (b: seq<byte>)
    ensures |b| == 4
  {
    [v % 256, v / 256 % 256, v / 65536 % 256, v / 16777216 % 256]
  }

  function Words(b: seq<byte>): (ws: seq<nat>)
    requires |b| % 4 == 0
    ensures |ws| == |b| / 4
  {
    if b == [] then [] else [Word(b[..4])] + Words(b[4..])
  }

  function AllLE32(ws: seq<nat>): (b: seq<byte>)
    ensures |b| == 4 * |ws|
  {
    if ws == [] then [] else LE32(ws[0]) + AllLE32(ws[1..])
  }

  /** struct.unpack of `n` words: the slice must have exactly their size. */
  function Unpack(data: seq<byte>, offset: int, n: nat): (r: Result<seq<nat>>)
    ensures r.Ok? ==> |r.value| == n
  {
    var s := Slice(data, offset, offset + 4 * n);
    if |s| == 4 * n then Ok(Words(s)) else Err(ShortRead)
  }

  // ----- 64-bit arithmetic of numpy

  const TWO63 := 0x8000_0000_0000_0000
  const TWO64 := 0x1_0000_0000_0000_0000

  function Wrap64(x: int): (r: int)
    ensures -TWO63 <= r < TWO63
    ensures -TWO63 <= x < TWO63 ==> r == x
  {
    (x + TWO63) % TWO64 - TWO63
  }

  function Product(dims: seq<nat>): nat {
    if dims == [] then 1 else dims[0] * Product(dims[1..])
  }

  /** np.prod, wrapping. */
  function Elements(dims: seq<nat>): int {
    Wrap64(Product(dims))
  }

  // ----- the header

  datatype Format = GGML | GGMF | GGJT

  function Rank(f: Format): nat {
    match f case GGML => 0 case GGMF => 1 case GGJT => 2
  }

  datatype Header = Header(format: Format, version: nat, size: nat)

  /** Magic bytes as they stand in the file. */
  function Magic(f: Format): seq<byte> {
    match f
    case GGML => [0x6c, 0x6d, 0x67, 0x67]
    case GGMF => [0x66, 0x6d, 0x67, 0x67]
    case GGJT => [0x74, 0x6a, 0x67, 0x67]
  }

  const GGUF_MAGIC: seq<byte> := [0x47, 0x47, 0x55, 0x46]

  function HeaderAt(data: seq<byte>, offset: int): Result<Header> {
    var magic := Slice(data, offset, offset + 4);
    if magic == GGUF_MAGIC then Err(AlreadyGguf)
    else if magic == Magic(GGML) then Ok(Header(GGML, 1, 4))
    else
      match Unpack(data, offset + 4, 1)
      case Err(e) => Err(e)
      case Ok(ws) =>
        var version := ws[0];
        if magic == Magic(GGMF) then (if version != 1 then Err(BadVersion(version)) else Ok(Header(GGMF, 1, 8)))
        else if magic == Magic(GGJT) then
          if version < 1 || version > 3 then Err(BadVersion(version)) else Ok(Header(GGJT, version, 8))
        else Err(BadMagic)
  }

  // ----- hyperparameters

  datatype Hyper = Hyper(nVocab: nat, nEmbd: nat, nMult: nat, nHead: nat, nLayer: nat, nRot: nat, ftype: nat)

  predicate KnownFtype(t: nat) {
    t <= 4 || 7 <= t <= 18
  }

  function HyperAt(data: seq<byte>, offset: int): Result<Hyper> {
    match Unpack(data, offset, 7)
    case Err(e) => Err(e)
    case Ok(w) => if KnownFtype(w[6]) then Ok(Hyper(w[0], w[1], w[2], w[3], w[4], w[5], w[6])) else Err(BadFtype(w[6]))
  }

  /** Only unquantised files before GGJT version 2, and neither Q4 nor Q8 in version 2. */
  predicate Eligible(f: Format, version: nat, ftype: nat) {
    if Rank(f) < Rank(GGJT) || version < 2 then ftype in {0, 1}
    else version == 2 ==> ftype !in {2, 3, 4, 7}
  }

  // ----- the vocabulary

  datatype Item = Item(text: seq<byte>, score: Option<seq<byte>>)

  datatype Items = Items(items: seq<Item>, end: int)

  /** One entry, and the offset after it. A text cut off by the end of the file is kept as it is. */
  function ItemAt(data: seq<byte>, offset: int, scores: bool): Result<(Item, int)> {
    match Unpack(data, offset, 1)
    case Err(e) => Err(e)
    case Ok(w) =>
      if w[0] >= 4096 then Err(AbsurdLength)
      else
        var at := offset + 4;
        var text := Slice(data, at, at + w[0]);
        var after := at + w[0];
        if !scores then Ok((Item(text, None), after))
        else
          var score := Slice(data, after, after + 4);
          if |score| == 4 then Ok((Item(text, Some(score)), after + 4)) else Err(ShortRead)
  }

  function ItemsAt(data: seq<byte>, offset: int, n: nat, scores: bool): Result<Items>
    decreases n
  {
    if n == 0 then Ok(Items([], offset))
    else
      match ItemAt(data, offset, scores)
      case Err(e) => Err(e)
      case Ok((item, next)) =>
        match ItemsAt(data, next, n - 1, scores)
        case Err(e) => Err(e)
        case Ok(rest) => Ok(Items([item] + rest.items, rest.end))
  }

  // ----- tensors

  datatype Info = Info(name: seq<byte>, dims: seq<nat>, dtype: nat, start: int, len: int)

  /** Elements and bytes of a block, for every type the converter knows. */
  function QuantSize(dtype: nat): Option<(nat, nat)> {
    match dtype
    case 0 => Some((1, 4)) case 1 => Some((1, 2))
    case 2 => Some((32, 18)) case 3 => Some((32, 20)) case 6 => Some((32, 22)) case 7 => Some((32, 24))
    case 8 => Some((32, 34)) case 9 => Some((32, 40))
    case 10 => Some((256, 84)) case 11 => Some((256, 110)) case 12 => Some((256, 144)) case 13 => Some((256, 176))
    case 14 => Some((256, 210)) case 15 => Some((256, 292))
    case 16 => Some((256, 66)) case 17 => Some((256, 74)) case 18 => Some((256, 98)) case 19 => Some((256, 50))
    case 20 => Some((32, 18)) case 21 => Some((256, 110)) case 22 => Some((256, 82)) case 23 => Some((256, 136))
    case 24 => Some((1, 1)) case 25 => Some((1, 2)) case 26 => Some((1, 4)) case 27 => Some((1, 8))
        case 28 => Some((1, 8))
    case 29 => Some((256, 56)) case 30 => Some((1, 2)) case 34 => Some((256, 54)) case 35 => Some((256, 66))
    case _ => None
  }

  lemma QuantSizePositive(dtype: nat)
    requires QuantSize(dtype).Some?
    ensures QuantSize(dtype).value.0 > 0 && QuantSize(dtype).value.1 > 0
  {
  }

  /** Bytes of a tensor as numpy computes them. */
  function ByteCount(dims: seq<nat>, block: nat, bytes: nat): int
    requires block > 0
  {
    Wrap64(Elements(dims) * bytes) / block
  }

  /** How far the absolute position `offset` is from the next multiple of 32. */
  function Padding(offset: int): (p: nat)
    ensures p < 32 && (offset + p) % 32 == 0
  {
    (offset + 31) / 32 * 32 - offset
  }

  function TensorAt(data: seq<byte>, offset: int, padded: bool): Result<(Info, int)> {
    match Unpack(data, offset, 3)
    case Err(e) => Err(e)
    case Ok(w) =>
      var nDims, nameLen, dtype := w[0], w[1], w[2];
      if nDims > 4 then Err(BadDimensions)
      else if nameLen >= 4096 then Err(AbsurdLength)
      else if QuantSize(dtype).None? then Err(UnknownType)
      else
        QuantSizePositive(dtype);
        var (block, bytes) := QuantSize(dtype).value;
        match Unpack(data, offset + 12, nDims)
        case Err(e) => Err(e)
        case Ok(dims) =>
          var at := offset + 12 + 4 * nDims;
          var name := Slice(data, at, at + nameLen);
          var start := at + nameLen + (if padded then Padding(at + nameLen) else 0);
          var len := ByteCount(dims, block, bytes);
          Ok((Info(name, dims, dtype, start, len), Wrap64(start + len)))
  }

  datatype Tensors = Tensors(infos: seq<Info>, end: int)

  /** The loop `while offset < len(data)`, for at most `fuel` tensors. */
  function TensorsAt(data: seq<byte>, offset: int, padded: bool, fuel: nat): Result<Tensors>
    decreases fuel
  {
    if offset >= |data| then Ok(Tensors([], offset))
    else if fuel == 0 then Err(OutOfFuel)
    else
      match TensorAt(data, offset, padded)
      case Err(e) => Err(e)
      case Ok((info, next)) =>
        match TensorsAt(data, next, padded, fuel - 1)
        case Err(e) => Err(e)
        case Ok(rest) => Ok(Tensors([info] + rest.infos, rest.end))
  }

  // ----- the whole file

  /** layers.0.feed_forward.w1.weight */
  const FF_NAME: seq<byte> := [108, 97, 121, 101, 114, 115, 46, 48, 46, 102, 101, 101, 100, 95, 102, 111, 114, 119, 97,
                               114, 100, 46, 119, 49, 46, 119, 101, 105, 103, 104, 116]

  /** The last tensor of a name. */
  function LastNamed(infos: seq<Info>, name: seq<byte>): (r: Option<nat>)
    ensures r.Some? ==> r.value < |infos| && infos[r.value].name == name
    ensures r.Some? ==> forall i :: r.value < i < |infos| ==> infos[i].name != name
    ensures r.None? ==> forall i :: 0 <= i < |infos| ==> infos[i].name != name
  {
    if infos == [] then None
    else if infos[|infos| - 1].name == name then Some(|infos| - 1)
    else LastNamed(infos[..|infos| - 1], name)
  }

  datatype Loaded = Loaded(format: Format, version: nat, hyper: Hyper, items: seq<Item>, infos: seq<Info>, nFf: nat,
      end: int)

  function FeedForward(infos: seq<Info>): Result<nat> {
    match LastNamed(infos, FF_NAME)
    case None => Err(MissingFeedForward)
    case Some(i) => if |infos[i].dims| < 2 then Err(BadDimensions) else Ok(infos[i].dims[1])
  }

  function LoadAt(data: seq<byte>, offset: int, fuel: nat): Result<Loaded> {
    match HeaderAt(data, offset)
    case Err(e) => Err(e)
    case Ok(h) =>
      match HyperAt(data, offset + h.size)
      case Err(e) => Err(e)
      case Ok(hp) =>
        if !Eligible(h.format, h.version, hp.ftype) then Err(NotEligible)
        else
          match ItemsAt(data, offset + h.size + 28, hp.nVocab, Rank(h.format) > Rank(GGML))
          case Err(e) => Err(e)
          case Ok(v) =>
            match TensorsAt(data, v.end, Rank(h.format) > Rank(GGMF), fuel)
            case Err(e) => Err(e)
            case Ok(ts) =>
              match FeedForward(ts.infos)
              case Err(e) => Err(e)
              case Ok(nFf) => Ok(Loaded(h.format, h.version, hp, v.items, ts.infos, nFf, ts.end))
  }
}
