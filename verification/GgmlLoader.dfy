/** The loader's objects: each load method sets its fields and returns how far it read. */
module GgmlLoader {
  import opened Bits
  import opened GgmlFormat

  class Hyperparameters {
    var values: Hyper
    var nFf: nat

    constructor ()
      ensures values == Hyper(0, 0, 0, 0, 0, 0, 0) && nFf == 0
    {
      values, nFf := Hyper(0, 0, 0, 0, 0, 0, 0), 0;
    }

    method Load(data: seq<byte>, offset: int) returns (r: Result<nat>)
      modifies this
      ensures r.Ok? <==> HyperAt(data, offset).Ok?
      ensures r.Ok? ==> r.value == 28 && values == HyperAt(data, offset).value
      ensures r.Err? ==> r.error == HyperAt(data, offset).error
      ensures nFf == old(nFf)
    {
      hide Unpack;
      match Unpack(data, offset, 7) {
        case Err(e) => return Err(e);
        case Ok(w) =>
          values := Hyper(w[0], w[1], w[2], w[3], w[4], w[5], values.ftype);
          if !KnownFtype(w[6]) { return Err(BadFtype(w[6])); }
          values := values.(ftype := w[6]);
          return Ok(28);
      }
    }

    /** n_ff is the second dimension of the last tensor named like the feed-forward weights of layer 0. */
    method SetNFf(map_: map<seq<byte>, nat>, infos: seq<Info>) returns (r: Result<()>)
      requires Indexes(map_, infos)
      modifies this`nFf
      ensures r.Ok? <==> FeedForward(infos).Ok?
      ensures r.Ok? ==> nFf == FeedForward(infos).value
      ensures r.Err? ==> r.error == FeedForward(infos).error && nFf == old(nFf)
    {
      if FF_NAME !in map_ { return Err(MissingFeedForward); }
      var dims := infos[map_[FF_NAME]].dims;
      if |dims| < 2 { return Err(BadDimensions); }
      nFf := dims[1];
      r := Ok(());
    }
  }

  /** tensor_map: the last index of every name. */
  ghost predicate Indexes(m: map<seq<byte>, nat>, infos: seq<Info>) {
    && (forall name :: name in m <==> LastNamed(infos, name).Some?)
    && forall name :: name in m ==> LastNamed(infos, name) == Some(m[name])
  }

  class Vocab {
    var items: seq<Item>
    const loadScores: bool

    constructor (loadScores: bool)
      ensures items == [] && this.loadScores == loadScores
    {
      items := [];
      this.loadScores := loadScores;
    }

    method Load(data: seq<byte>, offset0: int, nVocab: nat) returns (r: Result<int>)
      modifies this`items
      ensures r.Ok? <==> ItemsAt(data, offset0, nVocab, loadScores).Ok?
      ensures r.Ok? ==> items == old(items) + ItemsAt(data, offset0, nVocab, loadScores).value.items
      ensures r.Ok? ==> offset0 + r.value == ItemsAt(data, offset0, nVocab, loadScores).value.end
      ensures r.Err? ==> r.error == ItemsAt(data, offset0, nVocab, loadScores).error
    {
      hide *;
      var offset := offset0;
      var k := 0;
      ghost var all := ItemsAt(data, offset0, nVocab, loadScores);
      NoneRead(items, all);
      while k < nVocab
        invariant k <= nVocab && Continues(all, items, old(items), ItemsAt(data, offset, nVocab - k, loadScores))
      {
        StepItems(data, offset, nVocab - k, loadScores);
        match Unpack(data, offset, 1) {
          case Err(e) =>
            ItemFails(data, offset, loadScores);
            Failed(all, items, old(items), ItemsAt(data, offset, nVocab - k, loadScores));
            return Err(e);
          case Ok(w) =>
            if w[0] >= 4096 {
              ItemAbsurd(data, offset, loadScores, w);
              Failed(all, items, old(items), ItemsAt(data, offset, nVocab - k, loadScores));
              return Err(AbsurdLength);
            }
            ItemIs(data, offset, loadScores, w);
            var text := Slice(data, offset + 4, offset + 4 + w[0]);
            var next := offset + 4 + w[0];
            var score: Option<seq<byte>> := None;
            if loadScores {
              var s := Slice(data, next, next + 4);
              if |s| != 4 {
                Failed(all, items, old(items), ItemsAt(data, offset, nVocab - k, loadScores));
                return Err(ShortRead);
              }
              score, next := Some(s), next + 4;
            }
            NextItem(all, items, old(items), ItemsAt(data, offset, nVocab - k, loadScores), Item(text, score),
                     ItemsAt(data, next, nVocab - k - 1, loadScores));
            items := items + [Item(text, score)];
            offset := next;
        }
        k := k + 1;
      }
      LastItem(data, offset, loadScores, all, items, old(items));
      return Ok(offset - offset0);
    }
  }

  /** The entries read so far, and what reading on will give, make up the whole. */
  ghost predicate Continues(all: Result<Items>, now: seq<Item>, was: seq<Item>, rest: Result<Items>) {
    match rest
    case Err(e) => all == Err(e)
    case Ok(v) => all.Ok? && all.value.end == v.end && was + all.value.items == now + v.items
  }

  lemma NoneRead(items: seq<Item>, all: Result<Items>)
    ensures Continues(all, items, items, all)
  {
  }

  lemma StepItems(data: seq<byte>, offset: int, n: nat, scores: bool)
    requires n > 0
    ensures ItemsAt(data, offset, n, scores) ==
            match ItemAt(data, offset, scores)
            case Err(e) => Err(e)
            case Ok((item, next)) =>
              match ItemsAt(data, next, n - 1, scores)
              case Err(e) => Err(e)
              case Ok(rest) => Ok(Items([item] + rest.items, rest.end))
  {
    hide ItemAt;
  }

  lemma ItemFails(data: seq<byte>, offset: int, scores: bool)
    requires Unpack(data, offset, 1).Err?
    ensures ItemAt(data, offset, scores) == Err(Unpack(data, offset, 1).error)
  {
    hide Unpack;
  }

  lemma ItemAbsurd(data: seq<byte>, offset: int, scores: bool, w: seq<nat>)
    requires Unpack(data, offset, 1) == Ok(w) && |w| == 1 && w[0] >= 4096
    ensures ItemAt(data, offset, scores) == Err(AbsurdLength)
  {
    hide Unpack;
  }

  lemma ItemIs(data: seq<byte>, offset: int, scores: bool, w: seq<nat>)
    requires Unpack(data, offset, 1) == Ok(w) && |w| == 1 && w[0] < 4096
    ensures var (text, next) := (Slice(data, offset + 4, offset + 4 + w[0]), offset + 4 + w[0]);
            var score := Slice(data, next, next + 4);
            ItemAt(data, offset, scores) ==
            if !scores then Ok((Item(text, None), next))
            else if |score| == 4 then Ok((Item(text, Some(score)), next + 4)) else Err(ShortRead)
  {
    hide Unpack, Slice;
  }

  lemma Failed(all: Result<Items>, now: seq<Item>, was: seq<Item>, rest: Result<Items>)
    requires Continues(all, now, was, rest) && rest.Err?
    ensures all == Err(rest.error)
  {
  }

  lemma NextItem(all: Result<Items>, now: seq<Item>, was: seq<Item>, rest: Result<Items>, item: Item,
      next: Result<Items>)
    requires Continues(all, now, was, rest)
    requires rest == match next case Err(e) => Err(e) case Ok(v) => Ok(Items([item] + v.items, v.end))
    ensures Continues(all, now + [item], was, next)
  {
    if next.Ok? { assert now + ([item] + next.value.items) == (now + [item]) + next.value.items; }
  }

  lemma LastItem(data: seq<byte>, offset: int, scores: bool, all: Result<Items>, now: seq<Item>, was: seq<Item>)
    requires Continues(all, now, was, ItemsAt(data, offset, 0, scores))
    ensures all.Ok? && all.value.end == offset && now == was + all.value.items
  {
  }

  class Tensor {
    var name: seq<byte>
    var dims: seq<nat>
    var dtype: nat
    var startOffset: int
    var lenBytes: int
    const usePadding: bool

    constructor (usePadding: bool)
      ensures this.usePadding == usePadding
    {
      name, dims, dtype, startOffset, lenBytes := [], [], 0, 0, 0;
      this.usePadding := usePadding;
    }

    function Described(): Info
      reads this
    {
      Info(name, dims, dtype, startOffset, lenBytes)
    }

    /** Returns how far it read, in wrapping 64-bit arithmetic from the payload on. */
    method Load(data: seq<byte>, offset0: int) returns (r: Result<int>)
      modifies this
      ensures r.Ok? <==> TensorAt(data, offset0, usePadding).Ok?
      ensures r.Ok? ==> TensorAt(data, offset0, usePadding).value == (Described(), offset0 + r.value)
      ensures r.Err? ==> r.error == TensorAt(data, offset0, usePadding).error
    {
      hide Unpack, Slice, Padding, ByteCount, Wrap64, QuantSize;
      var header := Unpack(data, offset0, 3);
      if header.Err? { return Err(header.error); }
      var nDims, nameLen, type_ := header.value[0], header.value[1], header.value[2];
      if nDims > 4 { return Err(BadDimensions); }
      if nameLen >= 4096 { return Err(AbsurdLength); }
      var quant := QuantSize(type_);
      if quant.None? { return Err(UnknownType); }
      QuantSizePositive(type_);
      var offset := offset0 + 12;
      dtype := type_;
      var shape := Unpack(data, offset, nDims);
      if shape.Err? { return Err(shape.error); }
      dims := shape.value;
      offset := offset + 4 * nDims;
      name := Slice(data, offset, offset + nameLen);
      offset := offset + nameLen;
      var pad := if usePadding then Padding(offset) else 0;
      offset := offset + pad;
      var nBytes := ByteCount(dims, quant.value.0, quant.value.1);
      startOffset := offset;
      lenBytes := nBytes;
      offset := Wrap64(offset + nBytes);
      return Ok(offset - offset0);
    }
  }

  class GGMLModel {
    var fileFormat: Format
    var formatVersion: nat
    var hyperparameters: Hyper
    var nFf: nat
    var vocab: seq<Item>
    var tensors: seq<Info>
    var tensorMap: map<seq<byte>, nat>

    constructor ()
      ensures tensors == [] && vocab == [] && tensorMap == map[]
    {
      fileFormat, formatVersion := GGML, 0;
      hyperparameters, nFf, vocab, tensors, tensorMap := Hyper(0, 0, 0, 0, 0, 0, 0), 0, [], [], map[];
    }

    method ValidateHeader(data: seq<byte>, offset: int) returns (r: Result<nat>)
      modifies this`fileFormat, this`formatVersion
      ensures r.Ok? <==> HeaderAt(data, offset).Ok?
      ensures r.Ok? ==> Header(fileFormat, formatVersion, r.value) == HeaderAt(data, offset).value
      ensures r.Err? ==> r.error == HeaderAt(data, offset).error
      ensures r.Err? ==> fileFormat == old(fileFormat) && formatVersion == old(formatVersion)
    {
      hide Unpack, Slice;
      var magic := Slice(data, offset, offset + 4);
      if magic == GGUF_MAGIC { return Err(AlreadyGguf); }
      if magic == Magic(GGML) {
        fileFormat, formatVersion := GGML, 1;
        return Ok(4);
      }
      var words := Unpack(data, offset + 4, 1);
      if words.Err? { return Err(words.error); }
      var version := words.value[0];
      if magic == Magic(GGMF) {
        if version != 1 { return Err(BadVersion(version)); }
        fileFormat, formatVersion := GGMF, version;
        return Ok(8);
      }
      if magic == Magic(GGJT) {
        if version < 1 || version > 3 { return Err(BadVersion(version)); }
        fileFormat, formatVersion := GGJT, version;
        return Ok(8);
      }
      return Err(BadMagic);
    }

    /** The quantised types each version can still be converted from. */
    method ValidateConversion(ftype: nat) returns (r: Result<()>)
      ensures r == if Eligible(fileFormat, formatVersion, ftype) then Ok(()) else Err(NotEligible)
    {
      var err := false;
      if Rank(fileFormat) < Rank(GGJT) || formatVersion < 2 {
        if ftype !in {0, 1} { err := true; }
      } else if fileFormat == GGJT && formatVersion == 2 {
        if ftype in {2, 3, 4, 7} { err := true; }
      }
      r := if err then Err(NotEligible) else Ok(());
    }

    /** The fields after a load that went through. */
    ghost predicate Holds(l: Loaded)
      reads this
    {
      && fileFormat == l.format && formatVersion == l.version && hyperparameters == l.hyper && nFf == l.nFf
      && vocab == l.items && tensors == l.infos && Indexes(tensorMap, tensors)
    }

    /** Reads the tensors until the end of the file, at most `fuel` of them. */
    method LoadTensors(data: seq<byte>, offset0: int, padded: bool, fuel: nat)
      returns (r: Result<int>, infos: seq<Info>, map_: map<seq<byte>, nat>)
      ensures Indexes(map_, infos)
      ensures r.Ok? <==> TensorsAt(data, offset0, padded, fuel).Ok?
      ensures r.Ok? ==> TensorsAt(data, offset0, padded, fuel).value == Tensors(infos, r.value)
      ensures r.Err? ==> r.error == TensorsAt(data, offset0, padded, fuel).error
    {
      hide *;
      infos, map_ := [], map[];
      var offset, left := offset0, fuel;
      ghost var all := TensorsAt(data, offset0, padded, fuel);
      NoneLoaded(all);
      NoNames();
      while offset < |data|
        invariant Indexes(map_, infos) && Resumes(all, infos, TensorsAt(data, offset, padded, left))
        decreases left
      {
        StepTensors(data, offset, padded, left);
        if left == 0 {
          Stopped(all, infos, TensorsAt(data, offset, padded, left));
          return Err(OutOfFuel), infos, map_;
        }
        var tensor := new Tensor(padded);
        var read := tensor.Load(data, offset);
        if read.Err? {
          Stopped(all, infos, TensorsAt(data, offset, padded, left));
          return Err(read.error), infos, map_;
        }
        var info := tensor.Described();
        NextTensor(all, infos, TensorsAt(data, offset, padded, left), info,
                   TensorsAt(data, offset + read.value, padded, left - 1));
        IndexNext(map_, infos, info);
        NameIs(tensor);
        map_ := map_[tensor.name := |infos|];
        infos := infos + [info];
        offset := offset + read.value;
        left := left - 1;
      }
      LastTensor(data, offset, padded, left, all, infos);
      r := Ok(offset);
    }

    method Load(data: seq<byte>, offset0: int, fuel: nat) returns (r: Result<int>)
      modifies this
      ensures r.Ok? <==> LoadAt(data, offset0, fuel).Ok?
      ensures r.Ok? ==> Holds(LoadAt(data, offset0, fuel).value) && r.value == LoadAt(data, offset0, fuel).value.end
      ensures r.Err? ==> r.error == LoadAt(data, offset0, fuel).error
    {
      hide HeaderAt, HyperAt, ItemsAt, TensorsAt, Eligible, FeedForward, Indexes;
      var header := ValidateHeader(data, offset0);
      if header.Err? { return Err(header.error); }
      var offset := offset0 + header.value;
      var hp := new Hyperparameters();
      var read := hp.Load(data, offset);
      if read.Err? { return Err(read.error); }
      offset := offset + read.value;
      var valid := ValidateConversion(hp.values.ftype);
      if valid.Err? { return Err(valid.error); }
      var v := new Vocab(Rank(fileFormat) > Rank(GGML));
      var entries := v.Load(data, offset, hp.values.nVocab);
      if entries.Err? { return Err(entries.error); }
      assert [] + ItemsAt(data, offset, hp.values.nVocab, v.loadScores).value.items ==
             ItemsAt(data, offset, hp.values.nVocab, v.loadScores).value.items;
      offset := offset + entries.value;
      var end, infos, map_ := LoadTensors(data, offset, Rank(fileFormat) > Rank(GGMF), fuel);
      if end.Err? { return Err(end.error); }
      vocab, tensors, tensorMap := v.items, infos, map_;
      var ff := hp.SetNFf(tensorMap, tensors);
      hyperparameters, nFf := hp.values, hp.nFf;
      if ff.Err? { return Err(ff.error); }
      return Ok(end.value);
    }
  }

  /** The tensors read so far, and what reading on will give, make up the whole. */
  ghost predicate Resumes(all: Result<Tensors>, now: seq<Info>, rest: Result<Tensors>) {
    match rest
    case Err(e) => all == Err(e)
    case Ok(t) => all == Ok(Tensors(now + t.infos, t.end))
  }

  lemma NoneLoaded(all: Result<Tensors>)
    ensures Resumes(all, [], all)
  {
    if all.Ok? { assert [] + all.value.infos == all.value.infos; }
  }

  lemma NoNames()
    ensures Indexes(map[], [])
  {
  }

  lemma StepTensors(data: seq<byte>, offset: int, padded: bool, fuel: nat)
    requires offset < |data|
    ensures TensorsAt(data, offset, padded, fuel) ==
            if fuel == 0 then Err(OutOfFuel)
            else
              match TensorAt(data, offset, padded)
              case Err(e) => Err(e)
              case Ok((info, next)) =>
                match TensorsAt(data, next, padded, fuel - 1)
                case Err(e) => Err(e)
                case Ok(rest) => Ok(Tensors([info] + rest.infos, rest.end))
  {
    hide TensorAt;
  }

  lemma Stopped(all: Result<Tensors>, now: seq<Info>, rest: Result<Tensors>)
    requires Resumes(all, now, rest) && rest.Err?
    ensures all == Err(rest.error)
  {
  }

  lemma NextTensor(all: Result<Tensors>, now: seq<Info>, rest: Result<Tensors>, info: Info, next: Result<Tensors>)
    requires Resumes(all, now, rest)
    requires rest == match next case Err(e) => Err(e) case Ok(t) => Ok(Tensors([info] + t.infos, t.end))
    ensures Resumes(all, now + [info], next)
  {
    if next.Ok? { assert now + ([info] + next.value.infos) == (now + [info]) + next.value.infos; }
  }

  lemma LastTensor(data: seq<byte>, offset: int, padded: bool, fuel: nat, all: Result<Tensors>, now: seq<Info>)
    requires offset >= |data| && Resumes(all, now, TensorsAt(data, offset, padded, fuel))
    ensures all == Ok(Tensors(now, offset))
  {
    assert now + [] == now;
  }

  lemma NameIs(t: Tensor)
    ensures t.Described().name == t.name
  {
  }

  lemma IndexNext(m: map<seq<byte>, nat>, infos: seq<Info>, info: Info)
    requires Indexes(m, infos)
    ensures Indexes(m[info.name := |infos|], infos + [info])
  {
    forall name
      ensures LastNamed(infos + [info], name) == if info.name == name then Some(|infos|) else LastNamed(infos, name) {
      assert (infos + [info])[..|infos|] == infos;
    }
    hide LastNamed;
  }
}
