/** Loading a serialised model, the layout of its tensors, and when the loader makes progress. */
module GgmlRoundTrip {
  import opened Bits
  import opened GgmlFormat

  // ----- serialised models

  datatype StoredTensor = StoredTensor(name: seq<byte>, dims: seq<nat>, dtype: nat, payload: seq<byte>)

  datatype Model = Model(format: Format, version: nat, hyper: Hyper, items: seq<Item>, tensors: seq<StoredTensor>)

  function Zeros(n: nat): (r: seq<byte>)
    ensures |r| == n
  {
    seq(n, _ => 0)
  }

  predicate AllWords(ws: seq<nat>) {
    forall i :: 0 <= i < |ws| ==> ws[i] < 0x1_0000_0000
  }

  function Front(t: StoredTensor): seq<byte> {
    AllLE32([|t.dims|, |t.name|, t.dtype]) + (AllLE32(t.dims) + t.name)
  }

  function PaddingAfter(at: int, padded: bool): nat {
    if padded then Padding(at) else 0
  }

  /** A tensor at the absolute position `pos`. */
  function TensorBytes(t: StoredTensor, pos: nat, padded: bool): seq<byte> {
    Front(t) + (Zeros(PaddingAfter(pos + |Front(t)|, padded)) + t.payload)
  }

  function AllTensors(ts: seq<StoredTensor>, pos: nat, padded: bool): seq<byte> {
    if ts == [] then []
    else TensorBytes(ts[0], pos, padded) + AllTensors(ts[1..], pos + |TensorBytes(ts[0], pos, padded)|, padded)
  }

  function ItemBytes(item: Item): seq<byte> {
    LE32(|item.text|) + (item.text + ScoreBytes(item))
  }

  function AllItems(items: seq<Item>): seq<byte> {
    if items == [] then [] else ItemBytes(items[0]) + AllItems(items[1..])
  }

  function HeaderBytes(f: Format, version: nat): seq<byte> {
    Magic(f) + if f == GGML then [] else AllLE32([version])
  }

  function HyperBytes(h: Hyper): seq<byte> {
    AllLE32([h.nVocab, h.nEmbd, h.nMult, h.nHead, h.nLayer, h.nRot, h.ftype])
  }

  function Padded(f: Format): bool {
    Rank(f) > Rank(GGMF)
  }

  function Scored(f: Format): bool {
    Rank(f) > Rank(GGML)
  }

  /** Where the tensors begin. */
  function TensorsStart(m: Model): nat {
    |HeaderBytes(m.format, m.version)| + |HyperBytes(m.hyper)| + |AllItems(m.items)|
  }

  function Serialised(m: Model): seq<byte> {
    HeaderBytes(m.format, m.version) +
    (HyperBytes(m.hyper) + (AllItems(m.items) + AllTensors(m.tensors, TensorsStart(m), Padded(m.format))))
  }

  // ----- well-formed models

  ghost predicate WellFormedTensor(t: StoredTensor) {
    && |t.dims| <= 4 && AllWords(t.dims) && |t.name| < 4096 && QuantSize(t.dtype).Some?
    && var (block, bytes) := QuantSize(t.dtype).value;
       Product(t.dims) * bytes < TWO63 && block > 0 && |t.payload| == Product(t.dims) * bytes / block
  }

  predicate WellFormedItem(item: Item, scored: bool) {
    |item.text| < 4096 && (item.score.Some? <==> scored) && (item.score.Some? ==> |item.score.value| == 4)
  }

  predicate GoodVersion(f: Format, version: nat) {
    match f case GGML => version == 1 case GGMF => version == 1 case GGJT => 1 <= version <= 3
  }

  /** The version of GGJT that last changed how a type is quantised; unquantised types never changed. */
  function LastChange(ftype: nat): nat {
    if ftype <= 1 then 0 else if ftype in {2, 3, 4, 7} then 3 else 2
  }

  /** GGML and GGMF files are older than any version of GGJT. */
  function Generation(f: Format, version: nat): nat {
    if f == GGJT then version else 0
  }

  /** A file can be converted exactly if its type has not changed since its version. */
  lemma EligibleExactly(f: Format, version: nat, ftype: nat)
    requires GoodVersion(f, version)
    ensures Eligible(f, version, ftype) <==> LastChange(ftype) <= Generation(f, version)
  {
  }

  ghost predicate WellFormed(m: Model) {
    && GoodVersion(m.format, m.version) && AllWords([m.hyper.nVocab, m.hyper.nEmbd, m.hyper.nMult, m.hyper.nHead,
                                                     m.hyper.nLayer, m.hyper.nRot, m.hyper.ftype])
    && KnownFtype(m.hyper.ftype) && Eligible(m.format, m.version, m.hyper.ftype)
    && |m.items| == m.hyper.nVocab && AllItemsFormed(m.items, Scored(m.format)) && AllTensorsFormed(m.tensors)
    && |Serialised(m)| < TWO63
  }

  ghost predicate AllItemsFormed(items: seq<Item>, scored: bool) {
    forall i :: 0 <= i < |items| ==> WellFormedItem(items[i], scored)
  }

  ghost predicate AllTensorsFormed(ts: seq<StoredTensor>) {
    forall i :: 0 <= i < |ts| ==> WellFormedTensor(ts[i])
  }

  // ----- the constants of the formats

  function Text(b: seq<byte>): string {
    seq(|b|, i requires 0 <= i < |b| => b[i] as char)
  }

  /** The names as they stand in a file, which holds the magic as a little-endian word. */
  lemma Names()
    ensures Text(Magic(GGML)) == "lmgg" && Text(Magic(GGMF)) == "fmgg" && Text(Magic(GGJT)) == "tjgg"
    ensures Text(GGUF_MAGIC) == "GGUF" && Text(FF_NAME) == "layers.0.feed_forward.w1.weight"
  {
  }

  /** GGML entries have no scores; only GGJT payloads are padded, to multiples of 32. */
  lemma FormatRules(f: Format, at: nat)
    ensures (Scored(f) <==> f != GGML) && (Padded(f) <==> f == GGJT)
    ensures PaddingAfter(at, Padded(f)) < 32 && (f == GGJT ==> (at + PaddingAfter(at, Padded(f))) % 32 == 0)
    ensures f != GGJT ==> PaddingAfter(at, Padded(f)) == 0
  {
    hide Padding;
  }

  /** The file types: unquantised, the two oldest quantisations with one mixed form, and from Q8_0 on to Q6_K. */
  lemma FileTypes(t: nat)
    ensures KnownFtype(t) <==> t in {0, 1, 2, 3, 4, 7, 8, 9, 10, 11, 12, 13, 14, 15, 16, 17, 18}
  {
  }

  /** A block of a quantised type is its scales and minima, at 2 bytes each or packed, and its quants bit by bit. */
  lemma BlockSizes()
    ensures QuantSize(0) == Some((1, 4)) && QuantSize(1) == Some((1, 2)) && QuantSize(30) == Some((1, 2))
    ensures QuantSize(2) == Some((32, 2 + 32 * 4 / 8)) && QuantSize(3) == Some((32, 2 + 2 + 32 * 4 / 8))
    ensures QuantSize(6) == Some((32, 2 + 32 * 5 / 8)) && QuantSize(7) == Some((32, 2 + 2 + 32 * 5 / 8))
    ensures QuantSize(8) == Some((32, 2 + 32)) && QuantSize(9) == Some((32, 4 + 4 + 32))
    ensures QuantSize(10) == Some((256, 2 + 2 + 256 / 16 + 256 * 2 / 8))
    ensures QuantSize(11) == Some((256, 2 + 12 + 256 * 3 / 8)) && QuantSize(12) == Some((256, 2 + 2 + 12 + 256 * 4 / 8))
    ensures QuantSize(13) == Some((256, 2 + 2 + 12 + 256 * 5 / 8))
    ensures QuantSize(14) == Some((256, 2 + 256 / 16 + 256 * 6 / 8))
    ensures QuantSize(15) == Some((256, 4 + 256 + 256 / 16 * 2))
    ensures forall t :: t in {4, 5, 31, 32, 33} || t > 35 ==> QuantSize(t) == None
  {
  }

  // ----- chunks of a file

  ghost predicate Holds(data: seq<byte>, pos: nat, chunk: seq<byte>) {
    pos + |chunk| <= |data| && data[pos..pos + |chunk|] == chunk
  }

  lemma HoldsParts(data: seq<byte>, pos: nat, a: seq<byte>, b: seq<byte>)
    requires Holds(data, pos, a + b)
    ensures Holds(data, pos, a) && Holds(data, pos + |a|, b)
  {
    assert data[pos..pos + |a + b|][..|a|] == data[pos..pos + |a|];
    assert data[pos..pos + |a + b|][|a|..] == data[pos + |a|..pos + |a| + |b|];
  }

  lemma SliceHolds(data: seq<byte>, pos: nat, chunk: seq<byte>)
    requires Holds(data, pos, chunk)
    ensures Slice(data, pos, pos + |chunk|) == chunk
  {
  }

  // ----- words

  lemma WordOfLE32(v: nat)
    requires v < 0x1_0000_0000
    ensures Word(LE32(v)) == v
  {
    var a, b := v / 256, v % 256;
    var c, d := a / 256, a % 256;
    var e, f := c / 256, c % 256;
    QuotientUnique(v, 65536, c, 256 * d + b);
    QuotientUnique(v, 16777216, e, 65536 * f + 256 * d + b);
  }

  lemma {:induction false} WordsOfLE32(ws: seq<nat>)
    requires AllWords(ws)
    ensures Words(AllLE32(ws)) == ws
  {
    if ws != [] {
      WordOfLE32(ws[0]);
      WordsOfLE32(ws[1..]);
      hide LE32, Word;
      var b := AllLE32(ws);
      assert b[..4] == LE32(ws[0]) && b[4..] == AllLE32(ws[1..]);
    }
  }

  lemma UnpackHolds(data: seq<byte>, pos: nat, ws: seq<nat>)
    requires AllWords(ws) && Holds(data, pos, AllLE32(ws))
    ensures Unpack(data, pos, |ws|) == Ok(ws)
  {
    hide Slice, Words, AllLE32, Holds, AllWords;
    WordsOfLE32(ws);
    SliceHolds(data, pos, AllLE32(ws));
  }

  // ----- one tensor

  function InfoOf(t: StoredTensor, pos: nat, padded: bool): Info {
    Info(t.name, t.dims, t.dtype, pos + |Front(t)| + PaddingAfter(pos + |Front(t)|, padded), |t.payload|)
  }

  lemma FrontLength(t: StoredTensor)
    ensures |Front(t)| == 12 + 4 * |t.dims| + |t.name|
  {
    hide AllLE32;
  }

  lemma TensorParts(data: seq<byte>, pos: nat, t: StoredTensor, padded: bool)
    requires Holds(data, pos, TensorBytes(t, pos, padded))
    ensures Holds(data, pos, AllLE32([|t.dims|, |t.name|, t.dtype])) && Holds(data, pos + 12, AllLE32(t.dims))
    ensures Holds(data, pos + 12 + 4 * |t.dims|, t.name)
    ensures var start := InfoOf(t, pos, padded).start;
            start >= 0 && Holds(data, start, t.payload) && start + |t.payload| == pos + |TensorBytes(t, pos, padded)|
  {
    hide *;
    FrontLength(t);
    BytesAre(t, pos, padded);
    InfoIs(t, pos, padded);
    var pad := Zeros(PaddingAfter(pos + |Front(t)|, padded));
    HoldsParts(data, pos, Front(t), pad + t.payload);
    HoldsParts(data, pos + |Front(t)|, pad, t.payload);
    HoldsParts(data, pos, AllLE32([|t.dims|, |t.name|, t.dtype]), AllLE32(t.dims) + t.name);
    HoldsParts(data, pos + 12, AllLE32(t.dims), t.name);
  }

  lemma BytesAre(t: StoredTensor, pos: nat, padded: bool)
    ensures TensorBytes(t, pos, padded) == Front(t) + (Zeros(PaddingAfter(pos + |Front(t)|, padded)) + t.payload)
    ensures Front(t) == AllLE32([|t.dims|, |t.name|, t.dtype]) + (AllLE32(t.dims) + t.name)
  {
    hide AllLE32, PaddingAfter, Zeros;
  }

  lemma SmallProduct(p: nat, bytes: nat)
    requires bytes > 0 && p * bytes < TWO63
    ensures Wrap64(Wrap64(p) * bytes) == p * bytes
  {
    MulMono(1, bytes, p);
    assert bytes * p == p * bytes;
    assert Wrap64(p) == p;
    hide Wrap64;
  }

  lemma FormedBytes(t: StoredTensor)
    requires WellFormedTensor(t)
    ensures QuantSize(t.dtype).value.0 > 0
            && ByteCount(t.dims, QuantSize(t.dtype).value.0, QuantSize(t.dtype).value.1) == |t.payload|
  {
    QuantSizePositive(t.dtype);
    hide QuantSize, Wrap64;
    var (block, bytes) := QuantSize(t.dtype).value;
    SmallProduct(Product(t.dims), bytes);
  }

  lemma SmallWords(t: StoredTensor)
    requires WellFormedTensor(t)
    ensures AllWords([|t.dims|, |t.name|, t.dtype]) && AllWords(t.dims)
  {
    KnownTypes(t.dtype);
    hide QuantSize;
  }

  lemma KnownTypes(dtype: nat)
    requires QuantSize(dtype).Some?
    ensures dtype <= 35
  {
  }

  lemma TensorAtIs(data: seq<byte>, offset: nat, padded: bool, n: nat, name: nat, dtype: nat, dims: seq<nat>)
    requires Unpack(data, offset, 3) == Ok([n, name, dtype]) && n <= 4 && name < 4096 && QuantSize(dtype).Some?
    requires QuantSize(dtype).value.0 > 0 && Unpack(data, offset + 12, n) == Ok(dims)
    ensures var at := offset + 12 + 4 * n;
            var start := at + name + PaddingAfter(at + name, padded);
            var len := ByteCount(dims, QuantSize(dtype).value.0, QuantSize(dtype).value.1);
            TensorAt(data, offset, padded) ==
                Ok((Info(Slice(data, at, at + name), dims, dtype, start, len), Wrap64(start + len)))
  {
    hide Slice, Unpack, Wrap64, ByteCount, QuantSize, Padding;
  }

  lemma Formed(t: StoredTensor)
    requires WellFormedTensor(t)
    ensures |t.dims| <= 4 && |t.name| < 4096 && QuantSize(t.dtype).Some?
  {
    hide QuantSize;
  }

  lemma InfoIs(t: StoredTensor, pos: nat, padded: bool)
    ensures var at := pos + 12 + 4 * |t.dims| + |t.name|;
            InfoOf(t, pos, padded) == Info(t.name, t.dims, t.dtype, at + PaddingAfter(at, padded), |t.payload|)
  {
    FrontLength(t);
    hide Front, PaddingAfter;
  }

  lemma HoldsEnd(data: seq<byte>, pos: nat, chunk: seq<byte>)
    requires Holds(data, pos, chunk) && |data| < TWO63
    ensures Wrap64(pos + |chunk|) == pos + |chunk| <= |data|
  {
  }

  /** Loading a stored tensor gives its description, and the position after its payload. */
  lemma TensorLoads(data: seq<byte>, pos: nat, t: StoredTensor, padded: bool)
    requires WellFormedTensor(t) && Holds(data, pos, TensorBytes(t, pos, padded)) && |data| < TWO63
    ensures TensorAt(data, pos, padded) == Ok((InfoOf(t, pos, padded), pos + |TensorBytes(t, pos, padded)|))
  {
    hide *;
    TensorParts(data, pos, t, padded);
    SmallWords(t);
    Formed(t);
    FormedBytes(t);
    InfoIs(t, pos, padded);
    SliceHolds(data, pos + 12 + 4 * |t.dims|, t.name);
    UnpackHolds(data, pos, [|t.dims|, |t.name|, t.dtype]);
    UnpackHolds(data, pos + 12, t.dims);
    TensorAtIs(data, pos, padded, |t.dims|, |t.name|, t.dtype, t.dims);
    HoldsEnd(data, pos, TensorBytes(t, pos, padded));
  }

  // ----- all tensors

  function InfosOf(ts: seq<StoredTensor>, pos: nat, padded: bool): (infos: seq<Info>)
    ensures |infos| == |ts|
  {
    if ts == [] then []
    else [InfoOf(ts[0], pos, padded)] + InfosOf(ts[1..], pos + |TensorBytes(ts[0], pos, padded)|, padded)
  }

  lemma TensorsUnfold(ts: seq<StoredTensor>, pos: nat, padded: bool)
    requires ts != []
    ensures var next := pos + |TensorBytes(ts[0], pos, padded)|;
            && AllTensors(ts, pos, padded) == TensorBytes(ts[0], pos, padded) + AllTensors(ts[1..], next, padded)
            && InfosOf(ts, pos, padded) == [InfoOf(ts[0], pos, padded)] + InfosOf(ts[1..], next, padded)
            && next >= pos + 12
  {
    FrontLength(ts[0]);
    hide Front, PaddingAfter, InfoOf;
  }

  lemma TensorsAtUnfold(data: seq<byte>, offset: int, padded: bool, fuel: nat, info: Info, next: int)
    requires offset < |data| && fuel > 0 && TensorAt(data, offset, padded) == Ok((info, next))
    ensures TensorsAt(data, offset, padded, fuel) ==
            match TensorsAt(data, next, padded, fuel - 1)
            case Err(e) => Err(e)
            case Ok(rest) => Ok(Tensors([info] + rest.infos, rest.end))
  {
    hide TensorAt;
  }

  lemma TensorsFormed(ts: seq<StoredTensor>)
    requires AllTensorsFormed(ts) && ts != []
    ensures WellFormedTensor(ts[0]) && AllTensorsFormed(ts[1..])
  {
    hide WellFormedTensor;
  }

  lemma NoTensors(data: seq<byte>, pos: int, padded: bool, fuel: nat)
    requires pos == |data|
    ensures TensorsAt(data, pos, padded, fuel) == Ok(Tensors([], pos))
  {
  }

  lemma EmptyTensors(pos: nat, padded: bool)
    ensures AllTensors([], pos, padded) == [] && InfosOf([], pos, padded) == []
  {
  }

  /** The loop recovers every tensor and stops exactly at the end of the file. */
  lemma {:induction false} TensorsLoad(data: seq<byte>, pos: nat, ts: seq<StoredTensor>, padded: bool, fuel: nat)
    requires AllTensorsFormed(ts) && Holds(data, pos, AllTensors(ts, pos, padded)) && |data| < TWO63
    requires pos + |AllTensors(ts, pos, padded)| == |data| && fuel >= |ts|
    ensures TensorsAt(data, pos, padded, fuel) == Ok(Tensors(InfosOf(ts, pos, padded), |data|))
    decreases |ts|
  {
    hide *;
    if ts == [] {
      EmptyTensors(pos, padded);
      NoTensors(data, pos, padded, fuel);
    } else {
      TensorsUnfold(ts, pos, padded);
      TensorsFormed(ts);
      var bytes := TensorBytes(ts[0], pos, padded);
      var next := pos + |bytes|;
      HoldsParts(data, pos, bytes, AllTensors(ts[1..], next, padded));
      TensorLoads(data, pos, ts[0], padded);
      TensorsLoad(data, next, ts[1..], padded, fuel - 1);
      TensorsAtUnfold(data, pos, padded, fuel, InfoOf(ts[0], pos, padded), next);
    }
  }

  /** Every description points at its payload. */
  lemma {:induction false} PayloadsHeld(data: seq<byte>, pos: nat, ts: seq<StoredTensor>, padded: bool, i: nat)
    requires Holds(data, pos, AllTensors(ts, pos, padded)) && i < |ts|
    ensures var info := InfosOf(ts, pos, padded)[i];
            && info.name == ts[i].name && info.dims == ts[i].dims && info.dtype == ts[i].dtype
            && info.len == |ts[i].payload| && info.start >= 0 && Holds(data, info.start, ts[i].payload)
    decreases |ts|
  {
    hide *;
    TensorsUnfold(ts, pos, padded);
    var bytes := TensorBytes(ts[0], pos, padded);
    var next := pos + |bytes|;
    HoldsParts(data, pos, bytes, AllTensors(ts[1..], next, padded));
    if i == 0 {
      TensorParts(data, pos, ts[0], padded);
      InfoIs(ts[0], pos, padded);
    } else {
      PayloadsHeld(data, next, ts[1..], padded, i - 1);
    }
  }

  // ----- header, hyperparameters, vocabulary

  lemma MagicsDiffer()
    ensures Magic(GGML) != Magic(GGMF) && Magic(GGML) != Magic(GGJT) && Magic(GGMF) != Magic(GGJT)
    ensures forall f :: Magic(f) != GGUF_MAGIC
  {
    assert Magic(GGML)[0] == 0x6c && Magic(GGMF)[0] == 0x66 && Magic(GGJT)[0] == 0x74 && GGUF_MAGIC[0] == 0x47;
  }

  lemma HeaderLoads(data: seq<byte>, f: Format, version: nat)
    requires GoodVersion(f, version) && Holds(data, 0, HeaderBytes(f, version))
    ensures HeaderAt(data, 0) == Ok(Header(f, version, |HeaderBytes(f, version)|))
  {
    hide *;
    HeaderBytesAre(f, version);
    HoldsParts(data, 0, Magic(f), if f == GGML then [] else AllLE32([version]));
    SliceHolds(data, 0, Magic(f));
    if f != GGML {
      OneSmall(f, version);
      UnpackHolds(data, 4, [version]);
    }
    HeaderAtIs(data, f, version);
  }

  lemma HeaderBytesAre(f: Format, version: nat)
    ensures |Magic(f)| == 4 && HeaderBytes(f, version) == Magic(f) + if f == GGML then [] else AllLE32([version])
    ensures |HeaderBytes(f, version)| == if f == GGML then 4 else 8
  {
    hide AllLE32;
  }

  lemma OneSmall(f: Format, version: nat)
    requires GoodVersion(f, version)
    ensures AllWords([version])
  {
  }

  lemma HeaderAtIs(data: seq<byte>, f: Format, version: nat)
    requires GoodVersion(f, version) && Slice(data, 0, 4) == Magic(f)
             && (f != GGML ==> Unpack(data, 4, 1) == Ok([version]))
    ensures HeaderAt(data, 0) == Ok(Header(f, version, if f == GGML then 4 else 8))
  {
    MagicsDiffer();
    hide Slice, Unpack, Magic, GGUF_MAGIC;
  }

  lemma HyperLoads(data: seq<byte>, pos: nat, h: Hyper)
    requires AllWords([h.nVocab, h.nEmbd, h.nMult, h.nHead, h.nLayer, h.nRot, h.ftype]) && KnownFtype(h.ftype)
    requires Holds(data, pos, HyperBytes(h))
    ensures HyperAt(data, pos) == Ok(h) && |HyperBytes(h)| == 28
  {
    UnpackHolds(data, pos, [h.nVocab, h.nEmbd, h.nMult, h.nHead, h.nLayer, h.nRot, h.ftype]);
    hide Holds, Unpack, AllLE32, AllWords, KnownFtype;
  }

  function ScoreBytes(item: Item): seq<byte> {
    if item.score.Some? then item.score.value else []
  }

  lemma ItemParts(data: seq<byte>, pos: nat, item: Item)
    requires Holds(data, pos, ItemBytes(item))
    ensures Holds(data, pos, AllLE32([|item.text|])) && Holds(data, pos + 4, item.text)
    ensures Holds(data, pos + 4 + |item.text|, ScoreBytes(item))
    ensures |ItemBytes(item)| == 4 + |item.text| + |ScoreBytes(item)|
  {
    OneWord(|item.text|);
    hide Holds, LE32, AllLE32;
    HoldsParts(data, pos, LE32(|item.text|), item.text + ScoreBytes(item));
    HoldsParts(data, pos + 4, item.text, ScoreBytes(item));
  }

  lemma OneWord(v: nat)
    ensures AllLE32([v]) == LE32(v)
  {
  }

  lemma ItemAtIs(data: seq<byte>, offset: int, scores: bool, n: nat, score: seq<byte>)
    requires Unpack(data, offset, 1) == Ok([n]) && n < 4096
    requires scores ==> |score| == 4 && Slice(data, offset + 4 + n, offset + 4 + n + 4) == score
    ensures ItemAt(data, offset, scores) ==
            Ok((Item(Slice(data, offset + 4, offset + 4 + n), if scores then Some(score) else None),
                offset + 4 + n + if scores then 4 else 0))
  {
    hide Unpack, Slice;
  }

  lemma ItemLoads(data: seq<byte>, pos: nat, item: Item, scored: bool)
    requires WellFormedItem(item, scored) && Holds(data, pos, ItemBytes(item))
    ensures ItemAt(data, pos, scored) == Ok((item, pos + |ItemBytes(item)|))
  {
    var n, score := |item.text|, ScoreBytes(item);
    assert n < 4096 && AllWords([n]) && (scored ==> |score| == 4) && (!scored ==> |score| == 0);
    assert item == Item(item.text, if scored then Some(score) else None);
    hide *;
    ItemParts(data, pos, item);
    UnpackHolds(data, pos, [n]);
    SliceHolds(data, pos + 4, item.text);
    SliceHolds(data, pos + 4 + n, score);
    ItemAtIs(data, pos, scored, n, score);
  }

  lemma ItemsUnfold(items: seq<Item>)
    requires items != []
    ensures AllItems(items) == ItemBytes(items[0]) + AllItems(items[1..])
  {
    hide ItemBytes;
  }

  lemma ItemsAtUnfold(data: seq<byte>, offset: int, n: nat, scores: bool, item: Item, next: int)
    requires n > 0 && ItemAt(data, offset, scores) == Ok((item, next))
    ensures ItemsAt(data, offset, n, scores) ==
            match ItemsAt(data, next, n - 1, scores)
            case Err(e) => Err(e)
            case Ok(rest) => Ok(Items([item] + rest.items, rest.end))
  {
    hide ItemAt;
  }

  lemma ItemsFormed(items: seq<Item>, scored: bool)
    requires AllItemsFormed(items, scored) && items != []
    ensures WellFormedItem(items[0], scored) && AllItemsFormed(items[1..], scored)
  {
    hide WellFormedItem;
  }

  lemma NoItems(data: seq<byte>, pos: int, scored: bool)
    ensures AllItems([]) == [] && ItemsAt(data, pos, 0, scored) == Ok(Items([], pos))
  {
  }

  lemma {:induction false} ItemsLoad(data: seq<byte>, pos: nat, items: seq<Item>, scored: bool)
    requires AllItemsFormed(items, scored) && Holds(data, pos, AllItems(items))
    ensures ItemsAt(data, pos, |items|, scored) == Ok(Items(items, pos + |AllItems(items)|))
    decreases |items|
  {
    hide *;
    if items == [] {
      NoItems(data, pos, scored);
    } else {
      ItemsUnfold(items);
      ItemsFormed(items, scored);
      var bytes := ItemBytes(items[0]);
      HoldsParts(data, pos, bytes, AllItems(items[1..]));
      ItemLoads(data, pos, items[0], scored);
      ItemsLoad(data, pos + |bytes|, items[1..], scored);
      ItemsAtUnfold(data, pos, |items|, scored, items[0], pos + |bytes|);
      assert [items[0]] + items[1..] == items;
    }
  }

  // ----- the whole file

  lemma ModelParts(m: Model)
    ensures var (data, h, hp) := (Serialised(m), HeaderBytes(m.format, m.version), HyperBytes(m.hyper));
            && Holds(data, 0, h) && Holds(data, |h|, hp) && Holds(data, |h| + |hp|, AllItems(m.items))
            && Holds(data, TensorsStart(m), AllTensors(m.tensors, TensorsStart(m), Padded(m.format)))
            && TensorsStart(m) + |AllTensors(m.tensors, TensorsStart(m), Padded(m.format))| == |data|
            && TensorsStart(m) == |h| + |hp| + |AllItems(m.items)|
  {
    hide *;
    var data, h, hp := Serialised(m), HeaderBytes(m.format, m.version), HyperBytes(m.hyper);
    var ts := AllTensors(m.tensors, TensorsStart(m), Padded(m.format));
    SerialisedIs(m);
    HoldsAll(data);
    HoldsParts(data, 0, h, hp + (AllItems(m.items) + ts));
    HoldsParts(data, |h|, hp, AllItems(m.items) + ts);
    HoldsParts(data, |h| + |hp|, AllItems(m.items), ts);
  }

  lemma SerialisedIs(m: Model)
    ensures Serialised(m) == HeaderBytes(m.format, m.version) + (HyperBytes(m.hyper) +
              (AllItems(m.items) + AllTensors(m.tensors, TensorsStart(m), Padded(m.format))))
    ensures TensorsStart(m) == |HeaderBytes(m.format, m.version)| + |HyperBytes(m.hyper)| + |AllItems(m.items)|
  {
    hide HeaderBytes, HyperBytes, AllItems, AllTensors, Padded;
  }

  lemma HoldsAll(data: seq<byte>)
    ensures Holds(data, 0, data)
  {
    assert data[0..|data|] == data;
  }

  lemma FormedParts(m: Model)
    requires WellFormed(m)
    ensures GoodVersion(m.format, m.version) && KnownFtype(m.hyper.ftype)
            && Eligible(m.format, m.version, m.hyper.ftype)
    ensures AllWords([m.hyper.nVocab, m.hyper.nEmbd, m.hyper.nMult, m.hyper.nHead, m.hyper.nLayer, m.hyper.nRot,
            m.hyper.ftype])
    ensures |m.items| == m.hyper.nVocab && AllItemsFormed(m.items, Scored(m.format)) && AllTensorsFormed(m.tensors)
    ensures |Serialised(m)| < TWO63
  {
    hide GoodVersion, KnownFtype, Eligible, AllWords, AllItemsFormed, AllTensorsFormed, Serialised, Scored;
  }

  lemma LoadIs(data: seq<byte>, h: Header, hp: Hyper, v: Items, ts: Tensors, fuel: nat)
    requires HeaderAt(data, 0) == Ok(h) && HyperAt(data, h.size) == Ok(hp) && Eligible(h.format, h.version, hp.ftype)
    requires ItemsAt(data, h.size + 28, hp.nVocab, Scored(h.format)) == Ok(v)
    requires TensorsAt(data, v.end, Padded(h.format), fuel) == Ok(ts)
    ensures LoadAt(data, 0, fuel) == match FeedForward(ts.infos)
                                     case Err(e) => Err(e)
                                     case Ok(nFf) => Ok(Loaded(h.format, h.version, hp, v.items, ts.infos, nFf, ts.end))
  {
    hide HeaderAt, HyperAt, ItemsAt, TensorsAt, Eligible, FeedForward;
  }

  /**
   * Loading a serialised model recovers header, hyperparameters, vocabulary and tensor descriptions and consumes the
   * file exactly; the only thing that can still go wrong is a missing or flat feed-forward tensor of layer 0.
   */
  lemma LoadRoundTrip(m: Model, fuel: nat)
    requires WellFormed(m) && fuel >= |m.tensors|
    ensures var infos := InfosOf(m.tensors, TensorsStart(m), Padded(m.format));
            LoadAt(Serialised(m), 0, fuel) ==
            match FeedForward(infos)
            case Err(e) => Err(e)
            case Ok(nFf) => Ok(Loaded(m.format, m.version, m.hyper, m.items, infos, nFf, |Serialised(m)|))
  {
    hide *;
    var data := Serialised(m);
    ModelParts(m);
    FormedParts(m);
    var h, hp := HeaderBytes(m.format, m.version), HyperBytes(m.hyper);
    HeaderLoads(data, m.format, m.version);
    HyperLoads(data, |h|, m.hyper);
    ItemsLoad(data, |h| + |hp|, m.items, Scored(m.format));
    TensorsLoad(data, TensorsStart(m), m.tensors, Padded(m.format), fuel);
    var infos := InfosOf(m.tensors, TensorsStart(m), Padded(m.format));
    LoadIs(data, Header(m.format, m.version, |h|), m.hyper, Items(m.items, TensorsStart(m)), Tensors(infos, |data|),
        fuel);
  }

  /** The n_ff of the loaded model is the second dimension of the last tensor with the feed-forward name. */
  lemma LoadSucceeds(m: Model, fuel: nat, i: nat)
    requires WellFormed(m) && fuel >= |m.tensors| && i < |m.tensors| && m.tensors[i].name == FF_NAME
    requires |m.tensors[i].dims| >= 2 && forall j :: i < j < |m.tensors| ==> m.tensors[j].name != FF_NAME
    ensures LoadAt(Serialised(m), 0, fuel).Ok? && LoadAt(Serialised(m), 0, fuel).value.nFf == m.tensors[i].dims[1]
  {
    hide *;
    LoadRoundTrip(m, fuel);
    ModelParts(m);
    var infos := InfosOf(m.tensors, TensorsStart(m), Padded(m.format));
    forall j | 0 <= j < |m.tensors| ensures infos[j].name == m.tensors[j].name && infos[j].dims == m.tensors[j].dims {
      PayloadsHeld(Serialised(m), TensorsStart(m), m.tensors, Padded(m.format), j);
    }
    LastNamedIs(infos, FF_NAME, i);
    FeedForwardIs(infos, i);
  }

  lemma LastNamedIs(infos: seq<Info>, name: seq<byte>, i: nat)
    requires i < |infos| && infos[i].name == name && forall j :: i < j < |infos| ==> infos[j].name != name
    ensures LastNamed(infos, name) == Some(i)
  {
  }

  lemma FeedForwardIs(infos: seq<Info>, i: nat)
    requires LastNamed(infos, FF_NAME) == Some(i) && i < |infos| && |infos[i].dims| >= 2
    ensures FeedForward(infos) == Ok(infos[i].dims[1])
  {
    hide LastNamed, FF_NAME;
  }

  // ----- what loads was serialised that way

  lemma LE32OfWord(b: seq<byte>)
    requires |b| == 4
    ensures Word(b) < 0x1_0000_0000 && LE32(Word(b)) == b
  {
    var v := Word(b);
    var b0: int, b1: int, b2: int, b3: int := b[0], b[1], b[2], b[3];
    QuotientUnique(v, 256, b1 + 256 * b2 + 65536 * b3, b0);
    QuotientUnique(v, 65536, b2 + 256 * b3, b0 + 256 * b1);
    QuotientUnique(v, 16777216, b3, b0 + 256 * b1 + 65536 * b2);
  }

  lemma {:induction false} LE32OfWords(b: seq<byte>)
    requires |b| % 4 == 0
    ensures AllWords(Words(b)) && AllLE32(Words(b)) == b
  {
    if b != [] {
      LE32OfWord(b[..4]);
      LE32OfWords(b[4..]);
      hide LE32, Word;
      var ws := Words(b);
      assert ws[0] == Word(b[..4]) && ws[1..] == Words(b[4..]);
      assert b[..4] + b[4..] == b;
    }
  }

  lemma WholeSlice(data: seq<byte>, lo: nat, n: nat)
    requires |Slice(data, lo, lo + n)| == n && (n > 0 || lo <= |data|)
    ensures Holds(data, lo, Slice(data, lo, lo + n))
  {
  }

  lemma UnpackSound(data: seq<byte>, pos: nat, n: nat)
    requires Unpack(data, pos, n).Ok? && (n > 0 || pos <= |data|)
    ensures AllWords(Unpack(data, pos, n).value) && Holds(data, pos, AllLE32(Unpack(data, pos, n).value))
  {
    hide Slice, Words, AllLE32, Holds;
    WholeSlice(data, pos, 4 * n);
    LE32OfWords(Slice(data, pos, pos + 4 * n));
  }

  lemma HoldsJoin(data: seq<byte>, pos: nat, a: seq<byte>, b: seq<byte>)
    requires Holds(data, pos, a) && Holds(data, pos + |a|, b)
    ensures Holds(data, pos, a + b)
  {
    assert data[pos..pos + |a + b|] == data[pos..pos + |a|] + data[pos + |a|..pos + |a| + |b|];
  }

  /** Only the three headers are accepted. */
  lemma HeaderSound(data: seq<byte>)
    requires HeaderAt(data, 0).Ok?
    ensures var h := HeaderAt(data, 0).value;
            && GoodVersion(h.format, h.version) && h.size == |HeaderBytes(h.format, h.version)|
            && Holds(data, 0, HeaderBytes(h.format, h.version))
  {
    var h := HeaderAt(data, 0).value;
    HeaderShape(data);
    hide *;
    HeaderBytesAre(h.format, h.version);
    WholeSlice(data, 0, 4);
    if h.format != GGML {
      UnpackSound(data, 4, 1);
      HoldsJoin(data, 0, Magic(h.format), AllLE32([h.version]));
    } else {
      NothingMore(Magic(GGML));
    }
  }

  lemma NothingMore(a: seq<byte>)
    ensures a + [] == a
  {
  }

  lemma HeaderShape(data: seq<byte>)
    requires HeaderAt(data, 0).Ok?
    ensures var h := HeaderAt(data, 0).value;
            && GoodVersion(h.format, h.version) && h.size == (if h.format == GGML then 4 else 8)
            && |Slice(data, 0, 4)| == 4 && Slice(data, 0, 4) == Magic(h.format)
            && (h.format != GGML ==> Unpack(data, 4, 1) == Ok([h.version]))
  {
    hide Slice, Unpack, GGUF_MAGIC;
    var h := HeaderAt(data, 0).value;
    if h.format != GGML {
      var ws := Unpack(data, 4, 1).value;
      assert ws == [ws[0]];
    }
  }

  lemma HyperSound(data: seq<byte>, pos: nat)
    requires HyperAt(data, pos).Ok?
    ensures var h := HyperAt(data, pos).value;
            && KnownFtype(h.ftype) && Holds(data, pos, HyperBytes(h)) && |HyperBytes(h)| == 28
  {
    UnpackSound(data, pos, 7);
    var w := Unpack(data, pos, 7).value;
    assert w == [w[0], w[1], w[2], w[3], w[4], w[5], w[6]];
    hide Unpack, AllLE32, Holds, KnownFtype, AllWords;
  }

  /** One entry that ends inside the file. */
  lemma ItemSound(data: seq<byte>, pos: nat, scored: bool)
    requires ItemAt(data, pos, scored).Ok? && ItemAt(data, pos, scored).value.1 <= |data|
    ensures var (item, next) := ItemAt(data, pos, scored).value;
            WellFormedItem(item, scored) && Holds(data, pos, ItemBytes(item)) && next == pos + |ItemBytes(item)|
  {
    hide *;
    ItemShape(data, pos, scored);
    var (item, next) := ItemAt(data, pos, scored).value;
    var n := Unpack(data, pos, 1).value[0];
    UnpackSound(data, pos, 1);
    TextInside(data, pos + 4, n);
    WholeSlice(data, pos + 4, n);
    ScoreInside(data, pos + 4 + n, item, scored);
    ItemJoined(data, pos, item);
    FormedItem(item, scored);
  }

  lemma ItemJoined(data: seq<byte>, pos: nat, item: Item)
    requires Holds(data, pos, AllLE32([|item.text|])) && Holds(data, pos + 4, item.text)
    requires Holds(data, pos + 4 + |item.text|, ScoreBytes(item))
    ensures Holds(data, pos, ItemBytes(item)) && |ItemBytes(item)| == 4 + |item.text| + |ScoreBytes(item)|
  {
    hide *;
    OneWord(|item.text|);
    ItemBytesAre(item);
    HoldsJoin(data, pos + 4, item.text, ScoreBytes(item));
    HoldsJoin(data, pos, LE32(|item.text|), item.text + ScoreBytes(item));
  }

  lemma ItemShape(data: seq<byte>, pos: nat, scored: bool)
    requires ItemAt(data, pos, scored).Ok?
    ensures Unpack(data, pos, 1).Ok? && Unpack(data, pos, 1).value[0] < 4096
    ensures Unpack(data, pos, 1).value == [Unpack(data, pos, 1).value[0]]
    ensures var ((item, next), n) := (ItemAt(data, pos, scored).value, Unpack(data, pos, 1).value[0]);
            && item.text == Slice(data, pos + 4, pos + 4 + n) && next == pos + 4 + n + (if scored then 4 else 0)
            && item.score == (if scored then Some(Slice(data, pos + 4 + n, pos + 4 + n + 4)) else None)
            && (scored ==> |Slice(data, pos + 4 + n, pos + 4 + n + 4)| == 4)
  {
    hide Slice, Unpack;
  }

  lemma TextInside(data: seq<byte>, at: nat, n: nat)
    requires at + n <= |data|
    ensures |Slice(data, at, at + n)| == n
  {
  }

  lemma ScoreInside(data: seq<byte>, at: nat, item: Item, scored: bool)
    requires item.score == (if scored then Some(Slice(data, at, at + 4)) else None) && at <= |data|
    requires scored ==> |Slice(data, at, at + 4)| == 4
    ensures Holds(data, at, ScoreBytes(item)) && |ScoreBytes(item)| == if scored then 4 else 0
  {
    if scored { WholeSlice(data, at, 4); }
    hide Slice;
  }

  lemma ItemBytesAre(item: Item)
    ensures ItemBytes(item) == LE32(|item.text|) + (item.text + ScoreBytes(item))
    ensures |ItemBytes(item)| == 4 + |item.text| + |ScoreBytes(item)|
  {
    hide LE32, ScoreBytes;
  }

  lemma FormedItem(item: Item, scored: bool)
    requires |item.text| < 4096 && (item.score.Some? <==> scored) && (item.score.Some? ==> |item.score.value| == 4)
    ensures WellFormedItem(item, scored)
  {
  }

  lemma ItemsAtParts(data: seq<byte>, pos: int, n: nat, scored: bool)
    requires ItemsAt(data, pos, n, scored).Ok? && n > 0
    ensures ItemAt(data, pos, scored).Ok?
    ensures var (item, next) := ItemAt(data, pos, scored).value;
            && ItemsAt(data, next, n - 1, scored).Ok?
            && ItemsAt(data, pos, n, scored).value.items == [item] + ItemsAt(data, next, n - 1, scored).value.items
            && ItemsAt(data, pos, n, scored).value.end == ItemsAt(data, next, n - 1, scored).value.end
  {
    hide ItemAt;
  }

  lemma ItemForward(data: seq<byte>, pos: nat, scored: bool)
    requires ItemAt(data, pos, scored).Ok?
    ensures ItemAt(data, pos, scored).value.1 >= pos + 4
  {
    ItemShape(data, pos, scored);
    hide *;
  }

  lemma {:induction false} ItemsForward(data: seq<byte>, pos: nat, n: nat, scored: bool)
    requires ItemsAt(data, pos, n, scored).Ok?
    ensures ItemsAt(data, pos, n, scored).value.end >= pos
    decreases n
  {
    hide *;
    if n == 0 {
      NoItems(data, pos, scored);
    } else {
      ItemsAtParts(data, pos, n, scored);
      ItemForward(data, pos, scored);
      ItemsForward(data, ItemAt(data, pos, scored).value.1, n - 1, scored);
    }
  }

  lemma FormedFront(item: Item, items: seq<Item>, scored: bool)
    requires WellFormedItem(item, scored) && AllItemsFormed(items, scored)
    ensures AllItemsFormed([item] + items, scored) && AllItems([item] + items) == ItemBytes(item) + AllItems(items)
  {
    hide WellFormedItem, ItemBytes;
    assert ([item] + items)[1..] == items;
  }

  lemma NoneFormed(data: seq<byte>, pos: nat, scored: bool)
    requires pos <= |data|
    ensures AllItemsFormed([], scored) && Holds(data, pos, AllItems([])) && |AllItems([])| == 0
  {
  }

  /** A vocabulary that ends inside the file is the serialisation of its entries. */
  lemma {:induction false} ItemsSound(data: seq<byte>, pos: nat, n: nat, scored: bool)
    requires ItemsAt(data, pos, n, scored).Ok? && ItemsAt(data, pos, n, scored).value.end <= |data|
    ensures var v := ItemsAt(data, pos, n, scored).value;
            && |v.items| == n && AllItemsFormed(v.items, scored)
            && Holds(data, pos, AllItems(v.items)) && v.end == pos + |AllItems(v.items)|
    decreases n
  {
    hide *;
    ItemsForward(data, pos, n, scored);
    if n == 0 {
      NoItems(data, pos, scored);
      NoneFormed(data, pos, scored);
    } else {
      ItemsAtParts(data, pos, n, scored);
      ItemForward(data, pos, scored);
      var (item, next) := ItemAt(data, pos, scored).value;
      var items := ItemsAt(data, next, n - 1, scored).value.items;
      ItemsForward(data, next, n - 1, scored);
      ItemSound(data, pos, scored);
      ItemsSound(data, next, n - 1, scored);
      FormedFront(item, items, scored);
      HoldsJoin(data, pos, ItemBytes(item), AllItems(items));
    }
  }

  /** What a tensor is read from, if its header lies inside the file. */
  lemma TensorSound(data: seq<byte>, offset: nat, padded: bool)
    requires TensorAt(data, offset, padded).Ok? && TensorAt(data, offset, padded).value.0.start <= |data|
    ensures var info := TensorAt(data, offset, padded).value.0;
            var t := StoredTensor(info.name, info.dims, info.dtype, []);
            && |t.dims| <= 4 && AllWords(t.dims) && |t.name| < 4096 && QuantSize(t.dtype).Some?
            && Holds(data, offset, Front(t)) && info.start == InfoOf(t, offset, padded).start
  {
    hide *;
    TensorShape(data, offset, padded);
    TensorAtStart(data, offset, padded);
    var info, w := TensorAt(data, offset, padded).value.0, Unpack(data, offset, 3).value;
    UnpackSound(data, offset, 3);
    UnpackSound(data, offset + 12, w[0]);
    TextInside(data, offset + 12 + 4 * w[0], w[1]);
    WholeSlice(data, offset + 12 + 4 * w[0], w[1]);
    FrontSound(data, offset, StoredTensor(info.name, info.dims, info.dtype, []), padded);
  }

  lemma FrontSound(data: seq<byte>, offset: nat, t: StoredTensor, padded: bool)
    requires Holds(data, offset, AllLE32([|t.dims|, |t.name|, t.dtype])) && Holds(data, offset + 12, AllLE32(t.dims))
    requires Holds(data, offset + 12 + 4 * |t.dims|, t.name)
    ensures Holds(data, offset, Front(t))
    ensures var at := offset + 12 + 4 * |t.dims| + |t.name|;
            InfoOf(t, offset, padded).start == at + PaddingAfter(at, padded)
  {
    hide *;
    HoldsJoin(data, offset + 12, AllLE32(t.dims), t.name);
    HoldsJoin(data, offset, AllLE32([|t.dims|, |t.name|, t.dtype]), AllLE32(t.dims) + t.name);
    BytesAre(t, offset, padded);
    InfoIs(t, offset, padded);
  }

  lemma TensorShape(data: seq<byte>, offset: nat, padded: bool)
    requires TensorAt(data, offset, padded).Ok?
    ensures Unpack(data, offset, 3).Ok?
    ensures var (info, w) := (TensorAt(data, offset, padded).value.0, Unpack(data, offset, 3).value);
            && w == [w[0], w[1], w[2]] && w[0] <= 4 && w[1] < 4096 && info.dtype == w[2] && QuantSize(w[2]).Some?
            && Unpack(data, offset + 12, w[0]) == Ok(info.dims) && |info.dims| == w[0]
            && info.name == Slice(data, offset + 12 + 4 * w[0], offset + 12 + 4 * w[0] + w[1])
            && var at := offset + 12 + 4 * w[0] + w[1]; info.start == at + PaddingAfter(at, padded)
  {
    hide Slice, Unpack, Wrap64, ByteCount, QuantSize, Padding;
  }

  /** Whatever loads begins with the serialisation of what was loaded, up to its tensors. */
  lemma LoadSound(data: seq<byte>, fuel: nat)
    requires LoadAt(data, 0, fuel).Ok?
    ensures var l := LoadAt(data, 0, fuel).value;
            && GoodVersion(l.format, l.version) && KnownFtype(l.hyper.ftype)
            && Eligible(l.format, l.version, l.hyper.ftype)
            && |l.items| == l.hyper.nVocab && AllItemsFormed(l.items, Scored(l.format))
            && Holds(data, 0, HeaderBytes(l.format, l.version) + (HyperBytes(l.hyper) + AllItems(l.items)))
  {
    var l := LoadAt(data, 0, fuel).value;
    LoadShape(data, fuel);
    hide *;
    HeaderSound(data);
    var n := |HeaderBytes(l.format, l.version)|;
    HyperSound(data, n);
    ItemsForward(data, n + 28, l.hyper.nVocab, Scored(l.format));
    ItemsSound(data, n + 28, l.hyper.nVocab, Scored(l.format));
    HoldsJoin(data, n, HyperBytes(l.hyper), AllItems(l.items));
    HoldsJoin(data, 0, HeaderBytes(l.format, l.version), HyperBytes(l.hyper) + AllItems(l.items));
  }

  /** A load needs at least one tensor, so the vocabulary ends before the file does. */
  lemma LoadShape(data: seq<byte>, fuel: nat)
    requires LoadAt(data, 0, fuel).Ok?
    ensures HeaderAt(data, 0).Ok? && HyperAt(data, HeaderAt(data, 0).value.size).Ok?
    ensures var (l, h) := (LoadAt(data, 0, fuel).value, HeaderAt(data, 0).value);
            && l.format == h.format && l.version == h.version && l.hyper == HyperAt(data, h.size).value
            && Eligible(l.format, l.version, l.hyper.ftype)
            && ItemsAt(data, h.size + 28, l.hyper.nVocab, Scored(l.format)).Ok?
            && var v := ItemsAt(data, h.size + 28, l.hyper.nVocab, Scored(l.format)).value;
               l.items == v.items && v.end < |data|
  {
    hide HeaderAt, HyperAt, ItemsAt, TensorAt, Eligible;
    NoFeedForward();
  }

  lemma NoFeedForward()
    ensures FeedForward([]) == Err(MissingFeedForward)
  {
    hide FF_NAME;
  }

  // ----- the layout of any file that loads

  lemma TensorAtStart(data: seq<byte>, offset: int, padded: bool)
    requires TensorAt(data, offset, padded).Ok?
    ensures var (info, next) := TensorAt(data, offset, padded).value;
            && offset + 12 <= info.start <= offset + 12 + 16 + 4096 + 32 && next == Wrap64(info.start + info.len)
            && (padded ==> info.start % 32 == 0)
  {
    hide Slice, Unpack, Wrap64, ByteCount, QuantSize, Padding;
  }

  /** No byte count is negative or reaches past the range of a 64-bit offset. */
  ghost predicate NoWrap(infos: seq<Info>) {
    forall i :: 0 <= i < |infos| ==> 0 <= infos[i].len && infos[i].start + infos[i].len < TWO63
  }

  ghost predicate Ordered(infos: seq<Info>, offset: int, padded: bool) {
    && (forall i :: 0 <= i < |infos| ==> infos[i].start >= offset + 12 && (padded ==> infos[i].start % 32 == 0))
    && forall i, j :: 0 <= i < j < |infos| ==> infos[i].start + infos[i].len + 12 <= infos[j].start
  }

  lemma OrderedFront(info: Info, infos: seq<Info>, offset: int, padded: bool)
    requires Ordered(infos, info.start + info.len, padded) && info.start >= offset + 12 && info.len >= 0
    requires padded ==> info.start % 32 == 0
    ensures Ordered([info] + infos, offset, padded)
  {
    var all := [info] + infos;
    forall i, j | 0 <= i < j < |all| ensures all[i].start + all[i].len + 12 <= all[j].start {
      if i > 0 { assert all[i] == infos[i - 1]; }
      assert all[j] == infos[j - 1];
    }
  }

  lemma NoWrapFront(info: Info, infos: seq<Info>)
    requires NoWrap([info] + infos)
    ensures NoWrap(infos) && 0 <= info.len && info.start + info.len < TWO63
  {
    var all := [info] + infos;
    assert all[0] == info;
    forall i | 0 <= i < |infos| ensures 0 <= infos[i].len && infos[i].start + infos[i].len < TWO63 {
      assert all[i + 1] == infos[i];
    }
  }

  lemma TensorsAtParts(data: seq<byte>, offset: int, padded: bool, fuel: nat)
    requires TensorsAt(data, offset, padded, fuel).Ok? && offset < |data|
    ensures fuel > 0 && TensorAt(data, offset, padded).Ok?
    ensures var (info, next) := TensorAt(data, offset, padded).value;
            && TensorsAt(data, next, padded, fuel - 1).Ok?
            && TensorsAt(data, offset, padded, fuel).value.infos ==
                [info] + TensorsAt(data, next, padded, fuel - 1).value.infos
  {
    hide TensorAt;
  }

  /** Payload ranges increase without touching, and are aligned to 32 bytes in GGJT files. */
  lemma {:induction false} RangesOrdered(data: seq<byte>, offset: nat, padded: bool, fuel: nat)
    requires TensorsAt(data, offset, padded, fuel).Ok? && NoWrap(TensorsAt(data, offset, padded, fuel).value.infos)
    ensures Ordered(TensorsAt(data, offset, padded, fuel).value.infos, offset, padded)
    decreases fuel
  {
    hide *;
    if offset < |data| {
      TensorsAtParts(data, offset, padded, fuel);
      TensorAtStart(data, offset, padded);
      var (info, next) := TensorAt(data, offset, padded).value;
      var infos := TensorsAt(data, next, padded, fuel - 1).value.infos;
      NoWrapFront(info, infos);
      NoWrapNext(info);
      RangesOrdered(data, next, padded, fuel - 1);
      OrderedFront(info, infos, offset, padded);
    } else {
      PastEnd(data, offset, padded, fuel);
    }
  }

  /** In a serialised model the ranges increase without touching, and are aligned to 32 bytes in GGJT files. */
  lemma ModelRangesOrdered(m: Model)
    requires WellFormed(m)
    ensures Ordered(InfosOf(m.tensors, TensorsStart(m), Padded(m.format)), TensorsStart(m), Padded(m.format))
  {
    hide *;
    var data, start, padded := Serialised(m), TensorsStart(m), Padded(m.format);
    ModelParts(m);
    FormedParts(m);
    TensorsLoad(data, start, m.tensors, padded, |m.tensors|);
    StoredNoWrap(data, start, m.tensors, padded);
    RangesOrdered(data, start, padded, |m.tensors|);
  }

  lemma StoredNoWrap(data: seq<byte>, pos: nat, ts: seq<StoredTensor>, padded: bool)
    requires Holds(data, pos, AllTensors(ts, pos, padded)) && |data| < TWO63
    ensures NoWrap(InfosOf(ts, pos, padded))
  {
    hide Holds, AllTensors, InfosOf;
    var infos := InfosOf(ts, pos, padded);
    forall i | 0 <= i < |infos| ensures 0 <= infos[i].len && infos[i].start + infos[i].len < TWO63 {
      PayloadsHeld(data, pos, ts, padded, i);
      HoldsEnd(data, infos[i].start, ts[i].payload);
    }
  }

  lemma NoWrapNext(info: Info)
    requires 0 <= info.len && 0 <= info.start && info.start + info.len < TWO63
    ensures Wrap64(info.start + info.len) == info.start + info.len
  {
  }

  lemma PastEnd(data: seq<byte>, offset: int, padded: bool, fuel: nat)
    requires offset >= |data|
    ensures TensorsAt(data, offset, padded, fuel) == Ok(Tensors([], offset)) && Ordered([], offset, padded)
  {
  }

  // ----- progress

  /** The part of a tensor's header that its length and its byte count depend on. */
  datatype Head = Head(dims: seq<nat>, nameLen: nat, block: nat, bytes: nat)

  /** The header at an offset, as far as it is in the file; none where the loader fails. */
  function HeadAt(data: seq<byte>, offset: int): Option<Head> {
    match Unpack(data, offset, 3)
    case Err(_) => None
    case Ok(w) =>
      if w[0] > 4 || w[1] >= 4096 || QuantSize(w[2]).None? then None
      else
        match Unpack(data, offset + 12, w[0])
        case Err(_) => None
        case Ok(dims) => Some(Head(dims, w[1], QuantSize(w[2]).value.0, QuantSize(w[2]).value.1))
  }

  /** Bytes from the first of a tensor to its payload. */
  function HeadLength(h: Head, offset: int, padded: bool): nat {
    var n := 12 + 4 * |h.dims| + h.nameLen;
    n + PaddingAfter(offset + n, padded)
  }

  lemma TensorOfHead(data: seq<byte>, offset: int, padded: bool)
    ensures TensorAt(data, offset, padded).Ok? <==> HeadAt(data, offset).Some?
    ensures HeadAt(data, offset).Some? ==>
              var (h, (info, next)) := (HeadAt(data, offset).value, TensorAt(data, offset, padded).value);
              && h.block > 0 && h.bytes > 0 && 12 <= HeadLength(h, offset, padded) <= 4200
              && info.start == offset + HeadLength(h, offset, padded) && info.dims == h.dims
              && info.len == ByteCount(h.dims, h.block, h.bytes) && next == Wrap64(info.start + info.len)
  {
    if HeadAt(data, offset).Some? { QuantSizePositive(Unpack(data, offset, 3).value[2]); }
    hide Slice, Unpack, Wrap64, ByteCount, QuantSize, Padding;
  }

  /**
   * The byte count numpy computes from a header's dimensions and type is neither so negative that it undoes the
   * header, nor so large that the offset after it wraps.
   */
  predicate Advances(h: Head, offset: int, padded: bool) {
    h.block > 0 && -1 * HeadLength(h, offset, padded) < ByteCount(h.dims, h.block, h.bytes)
    && ByteCount(h.dims, h.block, h.bytes) < TWO63 - offset - HeadLength(h, offset, padded)
  }

  /** The loop moves forward past a tensor exactly when its header advances. */
  lemma StepAdvances(data: seq<byte>, offset: nat, padded: bool)
    requires TensorAt(data, offset, padded).Ok? && offset < TWO63 - 8192
    ensures HeadAt(data, offset).Some?
    ensures TensorAt(data, offset, padded).value.1 > offset <==> Advances(HeadAt(data, offset).value, offset, padded)
  {
    TensorOfHead(data, offset, padded);
    LengthInRange(data, offset, padded);
    hide HeadAt, TensorAt, ByteCount, HeadLength, Wrap64;
    var info := TensorAt(data, offset, padded).value.0;
    WrapCases(info.start + info.len);
  }

  lemma LengthInRange(data: seq<byte>, offset: nat, padded: bool)
    requires TensorAt(data, offset, padded).Ok?
    ensures -TWO63 <= TensorAt(data, offset, padded).value.0.len < TWO63
  {
    ByteCountInRange();
    hide Slice, Unpack, Wrap64, ByteCount, Padding;
  }

  lemma ByteCountInRange()
    ensures forall dims, block: nat, bytes {:trigger ByteCount(dims, block, bytes)} :: block > 0 ==>
              -TWO63 <= ByteCount(dims, block, bytes) < TWO63
  {
    forall dims: seq<nat>, block: nat, bytes: nat | block > 0 ensures -TWO63 <= ByteCount(dims, block, bytes) < TWO63 {
      var x := Wrap64(Elements(dims) * bytes);
      hide Wrap64;
      QuotientInRange(x, block);
    }
  }

  lemma QuotientInRange(x: int, block: nat)
    requires block > 0 && -TWO63 <= x < TWO63
    ensures -TWO63 <= x / block < TWO63
  {
    var q, r := x / block, x % block;
    assert x == q * block + r;
  }

  lemma WrapCases(x: int)
    requires -TWO63 <= x < TWO64
    ensures Wrap64(x) == if x < TWO63 then x else x - TWO64
  {
    if x >= TWO63 { QuotientUnique(x + TWO63, TWO64, 1, x - TWO63); }
  }

  /** A tensor of fewer than 2^62 bytes is advanced past, by its true size. */
  lemma SmallAdvances(data: seq<byte>, offset: nat, padded: bool)
    requires HeadAt(data, offset).Some? && offset < TWO63 / 4 && Small(HeadAt(data, offset).value)
    ensures Advances(HeadAt(data, offset).value, offset, padded) && TensorAt(data, offset, padded).Ok?
    ensures var (h, (info, next)) := (HeadAt(data, offset).value, TensorAt(data, offset, padded).value);
            h.block > 0 && info.len == Product(h.dims) * h.bytes / h.block && next == info.start + info.len > offset
  {
    TensorOfHead(data, offset, padded);
    hide HeadAt, TensorAt, ByteCount, HeadLength, Wrap64, Product;
    var (h, info) := (HeadAt(data, offset).value, TensorAt(data, offset, padded).value.0);
    SmallCount(h.dims, h.block, h.bytes);
    NoWrapSum(info.start, info.len, offset);
  }

  predicate Small(h: Head) {
    Product(h.dims) * h.bytes < TWO63 / 2
  }

  lemma SmallCount(dims: seq<nat>, block: nat, bytes: nat)
    requires block > 0 && bytes > 0 && Product(dims) * bytes < TWO63 / 2
    ensures ByteCount(dims, block, bytes) == Product(dims) * bytes / block
    ensures 0 <= Product(dims) * bytes / block <= Product(dims) * bytes
  {
    SmallProduct(Product(dims), bytes);
    QuotientSmaller(Product(dims) * bytes, block);
    hide Wrap64;
  }

  lemma QuotientSmaller(x: nat, block: nat)
    requires block > 0
    ensures 0 <= x / block <= x
  {
    var q := x / block;
    assert x == q * block + x % block;
    MulMono(1, block, q);
    assert block * q == q * block;
  }

  lemma NoWrapSum(start: int, len: int, offset: nat)
    requires offset < TWO63 / 4 && offset + 12 <= start <= offset + 5000 && 0 <= len < TWO63 / 2
    ensures Wrap64(start + len) == start + len > offset
  {
  }

  // ----- when the loop ends

  /** Where iteration `k` of the loop begins; none if the loop has ended or failed before. */
  function Reached(data: seq<byte>, offset: int, padded: bool, k: nat): Option<int>
    decreases k
  {
    if k == 0 then Some(offset)
    else if offset < |data| && TensorAt(data, offset, padded).Ok?
    then Reached(data, TensorAt(data, offset, padded).value.1, padded, k - 1)
    else None
  }

  /** Iteration `k` takes place. */
  predicate Running(data: seq<byte>, offset: int, padded: bool, k: nat) {
    Reached(data, offset, padded, k).Some? && Reached(data, offset, padded, k).value < |data|
  }

  /** A bound on the iterations is what ends the loop exactly when another iteration would take place. */
  lemma {:induction false} OutOfFuelIff(data: seq<byte>, offset: int, padded: bool, fuel: nat)
    ensures TensorsAt(data, offset, padded, fuel) == Err(OutOfFuel) <==> Running(data, offset, padded, fuel)
    decreases fuel
  {
    TensorErrors(data, offset, padded);
    hide TensorAt;
    if offset < |data| && fuel > 0 && TensorAt(data, offset, padded).Ok? {
      var (info, next) := TensorAt(data, offset, padded).value;
      OutOfFuelIff(data, next, padded, fuel - 1);
      TensorsAtUnfold(data, offset, padded, fuel, info, next);
    }
  }

  lemma {:induction false} ReachedFrom(data: seq<byte>, offset: int, padded: bool, i: nat, j: nat)
    ensures Reached(data, offset, padded, i + j) ==
            match Reached(data, offset, padded, i) case None => None case Some(o) => Reached(data, o, padded, j)
    decreases i
  {
    hide TensorAt;
    if i > 0 && offset < |data| && TensorAt(data, offset, padded).Ok? {
      ReachedFrom(data, TensorAt(data, offset, padded).value.1, padded, i - 1, j);
    }
  }

  /** An offset is reached through iterations that all took place and read a tensor. */
  lemma RunningBefore(data: seq<byte>, offset: int, padded: bool, i: nat, k: nat)
    requires i < k && Reached(data, offset, padded, k).Some?
    ensures Running(data, offset, padded, i)
    ensures TensorAt(data, Reached(data, offset, padded, i).value, padded).Ok?
  {
    hide TensorAt;
    ReachedFrom(data, offset, padded, i, k - i);
  }

  lemma ReachedStep(data: seq<byte>, offset: int, padded: bool, k: nat)
    requires Reached(data, offset, padded, k + 1).Some?
    ensures Running(data, offset, padded, k)
    ensures var o := Reached(data, offset, padded, k).value;
            TensorAt(data, o, padded).Ok?
                && Reached(data, offset, padded, k + 1) == Some(TensorAt(data, o, padded).value.1)
  {
    RunningBefore(data, offset, padded, k, k + 1);
    ReachedFrom(data, offset, padded, k, 1);
    hide TensorAt, Reached;
    OneStep(data, Reached(data, offset, padded, k).value, padded);
  }

  lemma OneStep(data: seq<byte>, offset: int, padded: bool)
    requires offset < |data| && TensorAt(data, offset, padded).Ok?
    ensures Reached(data, offset, padded, 1) == Some(TensorAt(data, offset, padded).value.1)
  {
    hide TensorAt;
  }

  lemma ReachedStart(data: seq<byte>, offset: int, padded: bool)
    ensures Reached(data, offset, padded, 0) == Some(offset)
  {
  }

  lemma RunningReached(data: seq<byte>, offset: int, padded: bool, k: nat)
    ensures Running(data, offset, padded, k) <==>
            Reached(data, offset, padded, k).Some? && Reached(data, offset, padded, k).value < |data|
  {
    hide Reached;
  }

  /** Each tensor header that the loop reads, if it does, advances it. */
  ghost predicate AllAdvance(data: seq<byte>, offset: int, padded: bool) {
    forall k: nat :: Running(data, offset, padded, k) ==>
        AdvancesAt(data, Reached(data, offset, padded, k).value, padded)
  }

  predicate AdvancesAt(data: seq<byte>, offset: int, padded: bool) {
    HeadAt(data, offset).Some? ==> Advances(HeadAt(data, offset).value, offset, padded)
  }

  ghost predicate AllSmall(data: seq<byte>, offset: int, padded: bool) {
    forall k: nat :: Running(data, offset, padded, k) ==> SmallAt(data, Reached(data, offset, padded, k).value)
  }

  predicate SmallAt(data: seq<byte>, offset: int) {
    HeadAt(data, offset).Some? ==> Small(HeadAt(data, offset).value)
  }

  lemma RunningNext(data: seq<byte>, offset: int, padded: bool, k: nat)
    requires offset < |data| && TensorAt(data, offset, padded).Ok?
    ensures Reached(data, offset, padded, k + 1) == Reached(data, TensorAt(data, offset, padded).value.1, padded, k)
    ensures Running(data, offset, padded, k + 1) <==> Running(data, TensorAt(data, offset, padded).value.1, padded, k)
  {
    hide TensorAt;
  }

  lemma AllAdvanceNext(data: seq<byte>, offset: int, padded: bool)
    requires AllAdvance(data, offset, padded) && offset < |data|
    ensures AdvancesAt(data, offset, padded)
    ensures TensorAt(data, offset, padded).Ok? ==> AllAdvance(data, TensorAt(data, offset, padded).value.1, padded)
  {
    hide TensorAt, AdvancesAt;
    assert Running(data, offset, padded, 0);
    if TensorAt(data, offset, padded).Ok? {
      var next := TensorAt(data, offset, padded).value.1;
      forall k: nat | Running(data, next, padded, k)
          ensures AdvancesAt(data, Reached(data, next, padded, k).value, padded) {
        RunningNext(data, offset, padded, k);
      }
    }
  }

  /** If every header read advances, the loop ends or fails within as many steps as bytes are left. */
  lemma {:induction false} AdvancingEnds(data: seq<byte>, offset: nat, padded: bool, fuel: nat)
    requires AllAdvance(data, offset, padded) && fuel >= |data| - offset && |data| < TWO63 - 8192
    ensures TensorsAt(data, offset, padded, fuel) != Err(OutOfFuel)
    decreases fuel
  {
    hide *;
    TensorErrors(data, offset, padded);
    if offset >= |data| {
      PastEnd(data, offset, padded, fuel);
    } else if TensorAt(data, offset, padded).Ok? {
      var (info, next) := TensorAt(data, offset, padded).value;
      AllAdvanceNext(data, offset, padded);
      StepAdvances(data, offset, padded);
      AdvancesHere(data, offset, padded);
      TensorsAtUnfold(data, offset, padded, fuel, info, next);
      AdvancingEnds(data, next, padded, fuel - 1);
    } else {
      TensorsAtFails(data, offset, padded, fuel);
    }
  }

  lemma AdvancesHere(data: seq<byte>, offset: int, padded: bool)
    requires AdvancesAt(data, offset, padded) && HeadAt(data, offset).Some?
    ensures Advances(HeadAt(data, offset).value, offset, padded)
  {
    hide Advances, HeadAt;
  }

  lemma {:induction false} SmallReachedForward(data: seq<byte>, offset: nat, padded: bool, k: nat)
    requires AllSmall(data, offset, padded) && |data| < TWO63 / 4 && Running(data, offset, padded, k)
    ensures Reached(data, offset, padded, k).value >= offset + k
    decreases k
  {
    hide *;
    RunningReached(data, offset, padded, k);
    if k > 0 {
      ReachedStep(data, offset, padded, k - 1);
      SmallReachedForward(data, offset, padded, k - 1);
      SmallThere(data, offset, padded, k - 1);
      var o := Reached(data, offset, padded, k - 1).value;
      TensorOfHead(data, o, padded);
      RunningReached(data, offset, padded, k - 1);
      SmallAdvances(data, o, padded);
    } else {
      ReachedStart(data, offset, padded);
    }
  }

  lemma SmallThere(data: seq<byte>, offset: int, padded: bool, k: nat)
    requires AllSmall(data, offset, padded) && Running(data, offset, padded, k)
    ensures Reached(data, offset, padded, k).Some?
    ensures var o := Reached(data, offset, padded, k).value; HeadAt(data, o).Some? ==> Small(HeadAt(data, o).value)
  {
    hide Reached, HeadAt, Small;
    assert SmallAt(data, Reached(data, offset, padded, k).value);
  }

  /** Headers of tensors below 2^62 bytes advance, wherever the loop meets them. */
  lemma SmallAllAdvance(data: seq<byte>, offset: nat, padded: bool)
    requires AllSmall(data, offset, padded) && |data| < TWO63 / 4
    ensures AllAdvance(data, offset, padded)
  {
    hide HeadAt, Small, Advances, Reached;
    forall k: nat | Running(data, offset, padded, k)
        ensures AdvancesAt(data, Reached(data, offset, padded, k).value, padded) {
      SmallReachedForward(data, offset, padded, k);
      var o := Reached(data, offset, padded, k).value;
      assert SmallAt(data, o);
      if HeadAt(data, o).Some? { SmallAdvances(data, o, padded); }
    }
  }

  /** Where the loader starts its loop, and whether with padding; none if it fails before. */
  function TensorsBegin(data: seq<byte>): Option<(int, bool)> {
    match HeaderAt(data, 0)
    case Err(_) => None
    case Ok(h) =>
      match HyperAt(data, h.size)
      case Err(_) => None
      case Ok(hp) =>
        if !Eligible(h.format, h.version, hp.ftype) then None
        else
          match ItemsAt(data, h.size + 28, hp.nVocab, Scored(h.format))
          case Err(_) => None
          case Ok(v) => Some((v.end, Padded(h.format)))
  }

  lemma LoopBegins(data: seq<byte>, fuel: nat)
    ensures LoadAt(data, 0, fuel) == Err(OutOfFuel) <==>
            TensorsBegin(data).Some? &&
            TensorsAt(data, TensorsBegin(data).value.0, TensorsBegin(data).value.1, fuel) == Err(OutOfFuel)
  {
    hide *;
    if TensorsBegin(data).Some? { LoopOutOfFuel(data, fuel); } else { FailsBefore(data, fuel); }
  }

  lemma LoopOutOfFuel(data: seq<byte>, fuel: nat)
    requires TensorsBegin(data).Some?
    ensures LoadAt(data, 0, fuel) == Err(OutOfFuel) <==>
            TensorsAt(data, TensorsBegin(data).value.0, TensorsBegin(data).value.1, fuel) == Err(OutOfFuel)
  {
    hide HeaderAt, HyperAt, ItemsAt, TensorsAt, Eligible, FF_NAME;
  }

  lemma FailsBefore(data: seq<byte>, fuel: nat)
    requires TensorsBegin(data).None?
    ensures LoadAt(data, 0, fuel) != Err(OutOfFuel)
  {
    hide HeaderAt, HyperAt, ItemsAt, TensorsAt, Eligible, FeedForward;
    HeaderErrors(data);
    if HeaderAt(data, 0).Ok? {
      var h := HeaderAt(data, 0).value;
      HyperErrors(data, h.size);
      if HyperAt(data, h.size).Ok? {
        ItemsErrors(data, h.size + 28, HyperAt(data, h.size).value.nVocab, Scored(h.format));
      }
    }
  }

  lemma HeaderErrors(data: seq<byte>)
    ensures HeaderAt(data, 0) != Err(OutOfFuel)
  {
    hide Slice, Words;
  }

  lemma HyperErrors(data: seq<byte>, offset: int)
    ensures HyperAt(data, offset) != Err(OutOfFuel)
  {
    hide Slice, Words;
  }

  lemma {:induction false} ItemsErrors(data: seq<byte>, offset: int, n: nat, scores: bool)
    ensures ItemsAt(data, offset, n, scores) != Err(OutOfFuel)
    decreases n
  {
    assert ItemAt(data, offset, scores) != Err(OutOfFuel) by { hide Slice, Words; }
    if n > 0 && ItemAt(data, offset, scores).Ok? {
      ItemsErrors(data, ItemAt(data, offset, scores).value.1, n - 1, scores);
    }
    hide ItemAt;
  }

  lemma BeginForward(data: seq<byte>)
    requires TensorsBegin(data).Some?
    ensures TensorsBegin(data).value.0 >= 0
  {
    var h := HeaderAt(data, 0).value;
    var hp := HyperAt(data, h.size).value;
    hide HeaderAt, HyperAt, ItemsAt, Eligible;
    ItemsForward(data, h.size + 28, hp.nVocab, Scored(h.format));
  }

  /** If each tensor header the loop meets stays below 2^62 bytes, the load of a file ends, in success or an error. */
  lemma SmallLoadEnds(data: seq<byte>, fuel: nat)
    requires |data| < TWO63 / 4 && fuel >= |data|
    requires TensorsBegin(data).Some? ==> AllSmall(data, TensorsBegin(data).value.0, TensorsBegin(data).value.1)
    ensures LoadAt(data, 0, fuel) != Err(OutOfFuel)
  {
    hide *;
    LoopBegins(data, fuel);
    if TensorsBegin(data).Some? {
      var (offset, padded) := TensorsBegin(data).value;
      BeginForward(data);
      SmallAllAdvance(data, offset, padded);
      QuarterFits(|data|);
      AdvancingEnds(data, offset, padded, fuel);
    }
  }

  lemma QuarterFits(n: nat)
    requires n < TWO63 / 4
    ensures n < TWO63 - 8192
  {
  }

  // ----- running for ever

  ghost predicate Repeats(data: seq<byte>, offset: int, padded: bool, i: nat, j: nat) {
    i < j && Reached(data, offset, padded, i).Some?
        && Reached(data, offset, padded, i) == Reached(data, offset, padded, j)
  }

  /** A tensor is only read at an offset that is, counted from the front or from the end, inside the file. */
  lemma ReadInside(data: seq<byte>, offset: int, padded: bool)
    requires offset < |data| && TensorAt(data, offset, padded).Ok?
    ensures -1 * |data| <= offset
  {
    assert Unpack(data, offset, 3).Ok?;
    assert |Slice(data, offset, offset + 12)| == 12;
    hide TensorAt, Unpack;
  }

  lemma {:induction false} RepeatRuns(data: seq<byte>, offset: int, padded: bool, i: nat, j: nat, k: nat)
    requires Repeats(data, offset, padded, i, j)
    ensures Running(data, offset, padded, k)
    decreases k
  {
    hide *;
    RepeatIs(data, offset, padded, i, j);
    RunningReached(data, offset, padded, k);
    if k < j {
      RunningBefore(data, offset, padded, k, j);
    } else {
      var m := k - j;
      RepeatRuns(data, offset, padded, i, j, i + m);
      ReachedFrom(data, offset, padded, j, m);
      ReachedFrom(data, offset, padded, i, m);
      RunningReached(data, offset, padded, i + m);
    }
  }

  lemma RepeatIs(data: seq<byte>, offset: int, padded: bool, i: nat, j: nat)
    ensures Repeats(data, offset, padded, i, j) <==>
            i < j && Reached(data, offset, padded, i).Some? &&
            Reached(data, offset, padded, i) == Reached(data, offset, padded, j)
  {
    hide Reached;
  }

  /** The offsets at which the first `n` iterations begin. */
  function ReachedSet(data: seq<byte>, offset: int, padded: bool, n: nat): set<int>
    decreases n
  {
    if n == 0 then {}
    else ReachedSet(data, offset, padded, n - 1) +
         match Reached(data, offset, padded, n - 1) case None => {} case Some(o) => {o}
  }

  ghost predicate NoRepeat(data: seq<byte>, offset: int, padded: bool, n: nat) {
    forall i, j :: 0 <= i < j <= n ==> !Repeats(data, offset, padded, i, j)
  }

  lemma ReachedSetNext(data: seq<byte>, offset: int, padded: bool, n: nat)
    requires Reached(data, offset, padded, n).Some?
    ensures ReachedSet(data, offset, padded, n + 1) ==
            ReachedSet(data, offset, padded, n) + {Reached(data, offset, padded, n).value}
  {
    hide Reached;
  }

  lemma {:induction false} InReachedSet(data: seq<byte>, offset: int, padded: bool, n: nat, o: int) returns (i: nat)
    requires o in ReachedSet(data, offset, padded, n)
    ensures i < n && Reached(data, offset, padded, i) == Some(o)
    decreases n
  {
    hide Reached;
    if Reached(data, offset, padded, n - 1) == Some(o) {
      i := n - 1;
    } else {
      i := InReachedSet(data, offset, padded, n - 1, o);
    }
  }

  lemma InsideNext(s: set<int>, o: int, lo: int, hi: int)
    requires (forall p :: p in s ==> lo <= p < hi) && lo <= o < hi && o !in s
    ensures (forall p :: p in s + {o} ==> lo <= p < hi) && |s + {o}| == |s| + 1
  {
  }

  lemma NothingReached(data: seq<byte>, offset: int, padded: bool)
    ensures ReachedSet(data, offset, padded, 0) == {}
  {
  }

  lemma NoRepeatBefore(data: seq<byte>, offset: int, padded: bool, n: nat, i: nat)
    requires NoRepeat(data, offset, padded, n + 1)
    ensures NoRepeat(data, offset, padded, n) && (i < n ==> !Repeats(data, offset, padded, i, n))
  {
    hide Repeats;
  }

  /** Without a repetition each iteration begins at an offset of its own, inside the file. */
  lemma {:induction false} ReachedSetSize(data: seq<byte>, offset: int, padded: bool, n: nat)
    requires Reached(data, offset, padded, n).Some? && NoRepeat(data, offset, padded, n)
    ensures |ReachedSet(data, offset, padded, n)| == n
    ensures forall o :: o in ReachedSet(data, offset, padded, n) ==> -1 * |data| <= o < |data|
    decreases n
  {
    hide *;
    if n > 0 {
      ReachedStep(data, offset, padded, n - 1);
      RunningReached(data, offset, padded, n - 1);
      var o := Reached(data, offset, padded, n - 1).value;
      ReadInside(data, o, padded);
      NoRepeatBefore(data, offset, padded, n - 1, 0);
      ReachedSetSize(data, offset, padded, n - 1);
      var s := ReachedSet(data, offset, padded, n - 1);
      if o in s {
        var i := InReachedSet(data, offset, padded, n - 1, o);
        NoRepeatBefore(data, offset, padded, n - 1, i);
        RepeatIs(data, offset, padded, i, n - 1);
      }
      InsideNext(s, o, -1 * |data|, |data|);
      ReachedSetNext(data, offset, padded, n - 1);
    } else {
      NothingReached(data, offset, padded);
    }
  }

  lemma {:induction false} RangeSize(s: set<int>, lo: int, hi: int)
    requires lo <= hi && forall o :: o in s ==> lo <= o < hi
    ensures |s| <= hi - lo
    decreases hi - lo
  {
    if lo == hi {
      if s != {} {
        var o :| o in s;
        assert false;
      }
    } else {
      RangeSize(s - {hi - 1}, lo, hi - 1);
    }
  }

  /** A run longer than twice the file reaches some offset again. */
  lemma LongRunRepeats(data: seq<byte>, offset: int, padded: bool, n: nat)
    requires Running(data, offset, padded, n) && n > 2 * |data|
    ensures exists i, j :: Repeats(data, offset, padded, i, j)
  {
    RunningReached(data, offset, padded, n);
    hide Reached, Repeats, ReachedSet, Running;
    if NoRepeat(data, offset, padded, n) {
      ReachedSetSize(data, offset, padded, n);
      RangeSize(ReachedSet(data, offset, padded, n), -1 * |data|, |data|);
    }
  }

  /** No bound ends the loop. */
  ghost predicate RunsForever(data: seq<byte>, offset: int, padded: bool) {
    forall fuel: nat :: TensorsAt(data, offset, padded, fuel) == Err(OutOfFuel)
  }

  lemma LongRunForever(data: seq<byte>, offset: int, padded: bool, n: nat)
    requires TensorsAt(data, offset, padded, n) == Err(OutOfFuel) && n > 2 * |data|
    ensures RunsForever(data, offset, padded) && exists i, j :: Repeats(data, offset, padded, i, j)
  {
    hide TensorsAt, Running, Repeats;
    OutOfFuelIff(data, offset, padded, n);
    LongRunRepeats(data, offset, padded, n);
    var i, j :| Repeats(data, offset, padded, i, j);
    RepeatForever(data, offset, padded, i, j);
  }

  lemma RepeatForever(data: seq<byte>, offset: int, padded: bool, i: nat, j: nat)
    requires Repeats(data, offset, padded, i, j)
    ensures RunsForever(data, offset, padded)
  {
    hide TensorsAt, Running, Repeats;
    forall fuel: nat ensures TensorsAt(data, offset, padded, fuel) == Err(OutOfFuel) {
      OutOfFuelIff(data, offset, padded, fuel);
      RepeatRuns(data, offset, padded, i, j, fuel);
    }
  }

  /** The loop runs for ever exactly when it comes back to an offset. */
  lemma RunsForeverIff(data: seq<byte>, offset: int, padded: bool)
    ensures RunsForever(data, offset, padded) <==> exists i, j :: Repeats(data, offset, padded, i, j)
  {
    hide TensorsAt, Repeats;
    if exists i, j :: Repeats(data, offset, padded, i, j) {
      var i, j :| Repeats(data, offset, padded, i, j);
      RepeatForever(data, offset, padded, i, j);
    }
    if RunsForever(data, offset, padded) {
      assert TensorsAt(data, offset, padded, 2 * |data| + 1) == Err(OutOfFuel);
      LongRunForever(data, offset, padded, 2 * |data| + 1);
    }
  }

  lemma {:induction false} MoreFuel(data: seq<byte>, offset: int, padded: bool, fuel: nat, more: nat)
    requires TensorsAt(data, offset, padded, fuel) != Err(OutOfFuel) && fuel <= more
    ensures TensorsAt(data, offset, padded, more) == TensorsAt(data, offset, padded, fuel)
    decreases fuel
  {
    hide TensorAt;
    if offset < |data| && fuel > 0 && TensorAt(data, offset, padded).Ok? {
      MoreFuel(data, TensorAt(data, offset, padded).value.1, padded, fuel - 1, more - 1);
    }
  }

  /** A bound of more than twice the file's length changes nothing: a loop that reaches it would never end. */
  lemma FuelSuffices(data: seq<byte>, offset: int, padded: bool, fuel: nat, other: nat)
    requires fuel > 2 * |data| && other > 2 * |data|
    ensures TensorsAt(data, offset, padded, other) == TensorsAt(data, offset, padded, fuel)
  {
    hide TensorsAt;
    if TensorsAt(data, offset, padded, fuel) == Err(OutOfFuel) {
      LongRunForever(data, offset, padded, fuel);
    } else if TensorsAt(data, offset, padded, other) == Err(OutOfFuel) {
      LongRunForever(data, offset, padded, other);
    } else if fuel <= other {
      MoreFuel(data, offset, padded, fuel, other);
    } else {
      MoreFuel(data, offset, padded, other, fuel);
    }
  }

  /** So does a load with such a bound: it gives the same result with every larger one. */
  lemma LoadFuelSuffices(data: seq<byte>, fuel: nat, other: nat)
    requires fuel > 2 * |data| && other > 2 * |data|
    ensures LoadAt(data, 0, other) == LoadAt(data, 0, fuel)
  {
    hide HeaderAt, HyperAt, ItemsAt, TensorsAt, Eligible, FeedForward;
    if TensorsBegin(data).Some? {
      FuelSuffices(data, TensorsBegin(data).value.0, TensorsBegin(data).value.1, fuel, other);
    }
  }

  lemma TensorsAtFails(data: seq<byte>, offset: int, padded: bool, fuel: nat)
    requires offset < |data| && fuel > 0 && TensorAt(data, offset, padded).Err?
    ensures TensorsAt(data, offset, padded, fuel) == Err(TensorAt(data, offset, padded).error)
  {
    hide TensorAt;
  }

  lemma TensorErrors(data: seq<byte>, offset: int, padded: bool)
    ensures TensorAt(data, offset, padded) != Err(OutOfFuel)
  {
    hide Slice, Wrap64, ByteCount, Padding, Words;
  }

  /** A tensor of type I8 whose 64-bit element count wraps to -26, the size of its own header. */
  function StuckTensor(): seq<byte> {
    AllLE32([3, 2, 24]) + (AllLE32([252986611, 38175859, 1910]) + [0, 0])
  }

  /** A GGML file without a vocabulary whose only tensor is that one. */
  function StuckFile(): seq<byte> {
    HeaderBytes(GGML, 1) + (HyperBytes(Hyper(0, 0, 0, 0, 0, 0, 0)) + StuckTensor())
  }

  /** The loader stays at its tensor for ever. */
  lemma StuckForever(fuel: nat)
    ensures LoadAt(StuckFile(), 0, fuel) == Err(OutOfFuel)
  {
    hide *;
    StuckParts();
    StuckBegins();
    StuckStep();
    StuckRepeats();
    RepeatForever(StuckFile(), 32, false, 0, 1);
    StuckFuel(fuel);
    LoopBegins(StuckFile(), fuel);
  }

  lemma StuckFuel(fuel: nat)
    requires RunsForever(StuckFile(), 32, false)
    ensures TensorsAt(StuckFile(), 32, false, fuel) == Err(OutOfFuel)
  {
    hide TensorsAt, StuckFile;
  }

  lemma StuckRepeats()
    requires 32 < |StuckFile()| && TensorAt(StuckFile(), 32, false).Ok?
             && TensorAt(StuckFile(), 32, false).value.1 == 32
    ensures Repeats(StuckFile(), 32, false, 0, 1)
  {
    hide TensorAt, StuckFile;
    RunningNext(StuckFile(), 32, false, 0);
  }

  lemma StuckParts()
    ensures var data := StuckFile();
            && Holds(data, 0, HeaderBytes(GGML, 1)) && |HeaderBytes(GGML, 1)| == 4
            && Holds(data, 4, HyperBytes(Hyper(0, 0, 0, 0, 0, 0, 0))) && Holds(data, 32, StuckTensor())
            && 32 < |data|
  {
    StuckFileIs();
    hide *;
    var data, hp := StuckFile(), HyperBytes(Hyper(0, 0, 0, 0, 0, 0, 0));
    HeaderBytesAre(GGML, 1);
    HoldsAll(data);
    HoldsParts(data, 0, HeaderBytes(GGML, 1), hp + StuckTensor());
    HoldsParts(data, 4, hp, StuckTensor());
    ZeroHyper();
    HyperLoads(data, 4, Hyper(0, 0, 0, 0, 0, 0, 0));
    StuckIs();
  }

  lemma StuckFileIs()
    ensures StuckFile() == HeaderBytes(GGML, 1) + (HyperBytes(Hyper(0, 0, 0, 0, 0, 0, 0)) + StuckTensor())
  {
    hide HeaderBytes, HyperBytes, StuckTensor;
  }

  lemma ZeroHyper()
    ensures AllWords([0, 0, 0, 0, 0, 0, 0]) && KnownFtype(0) && Eligible(GGML, 1, 0) && GoodVersion(GGML, 1)
    ensures var h := Hyper(0, 0, 0, 0, 0, 0, 0);
            AllWords([h.nVocab, h.nEmbd, h.nMult, h.nHead, h.nLayer, h.nRot, h.ftype]) && KnownFtype(h.ftype)
  {
  }

  lemma StuckBegins()
    requires Holds(StuckFile(), 0, HeaderBytes(GGML, 1)) && |HeaderBytes(GGML, 1)| == 4
    requires Holds(StuckFile(), 4, HyperBytes(Hyper(0, 0, 0, 0, 0, 0, 0)))
    ensures TensorsBegin(StuckFile()) == Some((32, false))
  {
    hide *;
    var data := StuckFile();
    ZeroHyper();
    HeaderLoads(data, GGML, 1);
    HyperLoads(data, 4, Hyper(0, 0, 0, 0, 0, 0, 0));
    NoItems(data, 32, false);
    BeginIs(data, 4, Hyper(0, 0, 0, 0, 0, 0, 0), 32);
  }

  lemma BeginIs(data: seq<byte>, size: nat, hp: Hyper, end: int)
    requires HeaderAt(data, 0) == Ok(Header(GGML, 1, size)) && HyperAt(data, size) == Ok(hp)
             && Eligible(GGML, 1, hp.ftype)
    requires ItemsAt(data, size + 28, hp.nVocab, false) == Ok(Items([], end))
    ensures TensorsBegin(data) == Some((end, false))
  {
    hide HeaderAt, HyperAt, ItemsAt, Eligible;
  }

  lemma StuckCount()
    ensures ByteCount([252986611, 38175859, 1910], 1, 1) == -26
  {
    var dims := [252986611, 38175859, 1910];
    assert Product(dims) == dims[0] * (dims[1] * (dims[2] * Product([]))) by {
      assert dims[1..][1..] == [dims[2]] && dims[2..][1..] == [];
    }
    assert 252986611 * (38175859 * 1910) == TWO64 - 26;
    QuotientUnique(TWO64 - 26 + TWO63, TWO64, 1, TWO63 - 26);
    assert Elements(dims) == -26;
  }

  lemma StuckStep()
    requires Holds(StuckFile(), 32, StuckTensor())
    ensures TensorAt(StuckFile(), 32, false).Ok? && TensorAt(StuckFile(), 32, false).value.1 == 32
  {
    hide *;
    StuckIs();
    StuckCount();
    var data, dims := StuckFile(), [252986611, 38175859, 1910];
    HoldsParts(data, 32, AllLE32([3, 2, 24]), AllLE32(dims) + [0, 0]);
    HoldsParts(data, 44, AllLE32(dims), [0, 0]);
    UnpackHolds(data, 32, [3, 2, 24]);
    UnpackHolds(data, 44, dims);
    TensorAtIs(data, 32, false, 3, 2, 24, dims);
    NoPadding();
  }

  lemma StuckIs()
    ensures StuckTensor() == AllLE32([3, 2, 24]) + (AllLE32([252986611, 38175859, 1910]) + [0, 0])
    ensures AllWords([3, 2, 24]) && AllWords([252986611, 38175859, 1910]) && QuantSize(24) == Some((1, 1))
    ensures |[3, 2, 24]| == 3 == |[252986611, 38175859, 1910]|
  {
    hide AllLE32;
  }

  lemma NoPadding()
    ensures PaddingAfter(58, false) == 0 && Wrap64(32) == 32
  {
  }
}
