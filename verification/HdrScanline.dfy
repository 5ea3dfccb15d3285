/** The run-length coder for one component of an HDR scanline, and whole scanlines, against a reader. */
module HdrScanline {
  import opened Bits

  // ----- packets

  /** At most 128 literal bytes, or a run of at most 127. */
  datatype Packet = Dump(data: seq<byte>) | Run(length: nat, value: byte)

  function PacketBytes(p: Packet): seq<byte> {
    match p
    case Dump(data) => [UChar(|data|)] + data
    case Run(length, value) => [UChar(length + 128), value]
  }

  function Fill(value: byte, n: nat): (r: seq<byte>)
    ensures |r| == n
  {
    seq(n, _ => value)
  }

  function PacketData(p: Packet): seq<byte> {
    match p case Dump(data) => data case Run(length, value) => Fill(value, length)
  }

  predicate Fits(p: Packet) {
    match p case Dump(data) => 1 <= |data| <= 128 case Run(length, _) => 1 <= length <= 127
  }

  predicate AllFit(ps: seq<Packet>) {
    forall i :: 0 <= i < |ps| ==> Fits(ps[i])
  }

  function Bytes(ps: seq<Packet>): seq<byte> {
    if ps == [] then [] else PacketBytes(ps[0]) + Bytes(ps[1..])
  }

  function Data(ps: seq<Packet>): seq<byte> {
    if ps == [] then [] else PacketData(ps[0]) + Data(ps[1..])
  }

  // ----- a reader of one component

  datatype Decoded = Decoded(data: seq<byte>, rest: seq<byte>)

  /** `n` bytes of a component; a packet may not cross its end. Lengths above 128 are runs. */
  function Read(bytes: seq<byte>, n: nat): Option<Decoded>
    decreases n
  {
    if n == 0 then Some(Decoded([], bytes))
    else if bytes == [] then None
    else
      var h := bytes[0];
      if h > 128 then
        if |bytes| < 2 || h - 128 > n then None else Prepend(Fill(bytes[1], h - 128), Read(bytes[2..], n - (h - 128)))
      else if h == 0 || h > n || |bytes| < 1 + h then None
      else Prepend(bytes[1..1 + h], Read(bytes[1 + h..], n - h))
  }

  function Prepend(head: seq<byte>, r: Option<Decoded>): Option<Decoded> {
    match r case None => None case Some(d) => Some(Decoded(head + d.data, d.rest))
  }

  lemma ReadDump(data: seq<byte>, more: seq<byte>, n: nat)
    requires 1 <= |data| <= 128 && |data| <= n
    ensures Read([|data|] + data + more, n) == Prepend(data, Read(more, n - |data|))
  {
    hide Prepend;
    var b := [|data|] + data + more;
    assert b[0] == |data| && b[1..1 + |data|] == data && b[1 + |data|..] == more;
  }

  lemma ReadRun(h: byte, value: byte, more: seq<byte>, n: nat)
    requires 128 < h && h - 128 <= n
    ensures Read([h, value] + more, n) == Prepend(Fill(value, h - 128), Read(more, n - (h - 128)))
  {
    hide Prepend, Fill;
    var b := [h, value] + more;
    assert b[0] == h && b[1] == value && b[2..] == more;
  }

  lemma ReadPacket(p: Packet, more: seq<byte>, n: nat)
    requires Fits(p) && |PacketData(p)| <= n
    ensures Read(PacketBytes(p) + more, n) == Prepend(PacketData(p), Read(more, n - |PacketData(p)|))
  {
    hide Read, Prepend, Fill;
    match p
    case Dump(data) => ReadDump(data, more, n);
    case Run(length, value) => ReadRun(length + 128, value, more, n);
  }

  lemma FirstPacket(ps: seq<Packet>)
    requires ps != []
    ensures Bytes(ps) == PacketBytes(ps[0]) + Bytes(ps[1..]) && Data(ps) == PacketData(ps[0]) + Data(ps[1..])
    ensures AllFit(ps) ==> Fits(ps[0]) && AllFit(ps[1..])
  {
    hide PacketBytes, PacketData, Fits;
  }

  lemma PrependSome(head: seq<byte>, d: Decoded)
    ensures Prepend(head, Some(d)) == Some(Decoded(head + d.data, d.rest))
  {
  }

  lemma NoPackets(more: seq<byte>)
    ensures Bytes([]) + more == more && Data([]) == [] && Read(more, 0) == Some(Decoded([], more))
  {
  }

  /** Packets that fit read back as their data. */
  lemma {:induction false} ReadPackets(ps: seq<Packet>, rest: seq<byte>)
    requires AllFit(ps)
    ensures Read(Bytes(ps) + rest, |Data(ps)|) == Some(Decoded(Data(ps), rest))
  {
    hide *;
    if ps == [] {
      NoPackets(rest);
    } else {
      FirstPacket(ps);
      var p, qs := ps[0], ps[1..];
      ReadPackets(qs, rest);
      ReadPacket(p, Bytes(qs) + rest, |Data(ps)|);
      PrependSome(PacketData(p), Decoded(Data(qs), rest));
      JoinThree(PacketBytes(p), Bytes(qs), rest);
    }
  }

  lemma AppendFront<T>(ps: seq<T>, qs: seq<T>)
    ensures ps == [] ==> ps + qs == qs
    ensures ps != [] ==> ps + qs == [ps[0]] + (ps[1..] + qs) && ps == [ps[0]] + ps[1..]
  {
  }

  lemma {:induction false} AppendPackets(ps: seq<Packet>, qs: seq<Packet>)
    ensures Bytes(ps + qs) == Bytes(ps) + Bytes(qs) && Data(ps + qs) == Data(ps) + Data(qs)
  {
    hide *;
    AppendFront(ps, qs);
    if ps == [] {
      NoPackets(Bytes(qs));
      AppendFront([], Data(qs));
    } else {
      AppendPackets(ps[1..], qs);
      FirstOf(ps[0], ps[1..] + qs);
      FirstOf(ps[0], ps[1..]);
      JoinThree(PacketBytes(ps[0]), Bytes(ps[1..]), Bytes(qs));
      JoinThree(PacketData(ps[0]), Data(ps[1..]), Data(qs));
    }
  }

  lemma AppendFits(ps: seq<Packet>, qs: seq<Packet>)
    requires AllFit(ps) && AllFit(qs)
    ensures AllFit(ps + qs)
  {
    hide Fits;
  }

  // ----- which packets are written

  predicate RunAt(comp: seq<byte>, r: nat) {
    r + 2 < |comp| && comp[r] == comp[r + 1] == comp[r + 2]
  }

  /** The first position from `x` on where three equal bytes start; the end if there is none. */
  function RunStart(comp: seq<byte>, x: nat): (r: nat)
    requires x <= |comp|
    ensures x <= r <= |comp| && (r < |comp| ==> RunAt(comp, r))
    ensures forall k :: x <= k < r ==> !RunAt(comp, k)
    decreases |comp| - x
  {
    if x + 2 >= |comp| then |comp| else if RunAt(comp, x) then x else RunStart(comp, x + 1)
  }

  /** Where the bytes equal to comp[x] stop. */
  function RunEnd(comp: seq<byte>, x: nat, r: nat): (e: nat)
    requires x < |comp| && x <= r <= |comp| && forall k :: x <= k < r ==> comp[k] == comp[x]
    ensures r <= e <= |comp| && (forall k :: x <= k < e ==> comp[k] == comp[x])
    ensures e < |comp| ==> comp[e] != comp[x]
    decreases |comp| - r
  {
    if r < |comp| && comp[r] == comp[x] then RunEnd(comp, x, r + 1) else r
  }

  function Min(a: nat, b: nat): nat {
    if a < b then a else b
  }

  function Dumps(comp: seq<byte>, x: nat, r: nat): seq<Packet>
    requires x <= r <= |comp|
    decreases r - x
  {
    if x == r then [] else var len := Min(r - x, 128); [Dump(comp[x..x + len])] + Dumps(comp, x + len, r)
  }

  function Runs(value: byte, n: nat): seq<Packet> {
    if n == 0 then [] else var len := Min(n, 127); [Run(len, value)] + Runs(value, n - len)
  }

  /** Everything up to a run as literals, then the run, and so on. */
  function Packets(comp: seq<byte>, x: nat): seq<Packet>
    requires x <= |comp|
    decreases |comp| - x
  {
    var r := RunStart(comp, x);
    if r == |comp| then Dumps(comp, x, r)
    else var e := RunEnd(comp, r, r); assert e > r; Dumps(comp, x, r) + Runs(comp[r], e - r) + Packets(comp, e)
  }

  function Encoded(comp: seq<byte>): seq<byte> {
    Bytes(Packets(comp, 0))
  }

  lemma {:induction false} DumpsData(comp: seq<byte>, x: nat, r: nat)
    requires x <= r <= |comp|
    ensures AllFit(Dumps(comp, x, r)) && Data(Dumps(comp, x, r)) == comp[x..r]
    ensures |Bytes(Dumps(comp, x, r))| == (r - x) + (r - x + 127) / 128
    decreases r - x
  {
    if x < r {
      var len := Min(r - x, 128);
      var p, ps := Dump(comp[x..x + len]), Dumps(comp, x + len, r);
      DumpsData(comp, x + len, r);
      assert ([p] + ps)[1..] == ps;
      assert comp[x..x + len] + comp[x + len..r] == comp[x..r];
      hide Dumps, AllFit, Bytes, Data, Min;
      FirstOf(p, ps);
    }
  }

  lemma FirstOf(p: Packet, ps: seq<Packet>)
    ensures Bytes([p] + ps) == PacketBytes(p) + Bytes(ps) && Data([p] + ps) == PacketData(p) + Data(ps)
    ensures AllFit(ps) && Fits(p) ==> AllFit([p] + ps)
  {
    hide PacketBytes, PacketData, Fits;
    assert ([p] + ps)[1..] == ps;
  }

  lemma {:induction false} RunsData(value: byte, n: nat)
    ensures AllFit(Runs(value, n)) && Data(Runs(value, n)) == Fill(value, n)
    ensures |Bytes(Runs(value, n))| == 2 * ((n + 126) / 127)
  {
    if n > 0 {
      var len := Min(n, 127);
      var p, ps := Run(len, value), Runs(value, n - len);
      RunsData(value, n - len);
      assert Fill(value, len) + Fill(value, n - len) == Fill(value, n);
      hide Runs, AllFit, Bytes, Data, Min, Fill;
      FirstOf(p, ps);
    }
  }

  // ----- the round trip and the length

  lemma FillRun(comp: seq<byte>, r: nat, e: nat)
    requires r < e <= |comp| && forall k :: r <= k < e ==> comp[k] == comp[r]
    ensures Fill(comp[r], e - r) == comp[r..e]
  {
  }

  /** One stretch of literals and the run after it. */
  function Stretch(comp: seq<byte>, x: nat, r: nat, e: nat): seq<Packet>
    requires x <= r < e <= |comp|
  {
    Dumps(comp, x, r) + Runs(comp[r], e - r)
  }

  lemma StretchData(comp: seq<byte>, x: nat, r: nat, e: nat)
    requires x <= r && r + 3 <= e <= |comp| && forall k :: r <= k < e ==> comp[k] == comp[r]
    ensures AllFit(Stretch(comp, x, r, e)) && Data(Stretch(comp, x, r, e)) == comp[x..e]
    ensures |Bytes(Stretch(comp, x, r, e))| <= (e - x) + (e - x) / 128
  {
    hide *;
    DumpsData(comp, x, r);
    RunsData(comp[r], e - r);
    StretchIs(comp, x, r, e);
    AppendPackets(Dumps(comp, x, r), Runs(comp[r], e - r));
    AppendFits(Dumps(comp, x, r), Runs(comp[r], e - r));
    FillRun(comp, r, e);
    assert comp[x..r] + comp[r..e] == comp[x..e];
    StretchCost(r - x, e - r);
  }

  lemma StretchIs(comp: seq<byte>, x: nat, r: nat, e: nat)
    requires x <= r < e <= |comp|
    ensures Stretch(comp, x, r, e) == Dumps(comp, x, r) + Runs(comp[r], e - r)
  {
  }

  /** A run of three or more pays for the length byte of the literals before it. */
  lemma StretchCost(m: nat, n: nat)
    requires n >= 3
    ensures m + (m + 127) / 128 + 2 * ((n + 126) / 127) <= (m + n) + (m + n) / 128
  {
  }

  lemma PacketsUnfold(comp: seq<byte>, x: nat)
    requires x <= |comp|
    ensures var r := RunStart(comp, x);
            && (r == |comp| ==> Packets(comp, x) == Dumps(comp, x, r))
            && (r < |comp| ==>
                  var e := RunEnd(comp, r, r);
                  && r + 3 <= e && (forall k :: r <= k < e ==> comp[k] == comp[r])
                  && Packets(comp, x) == Stretch(comp, x, r, e) + Packets(comp, e))
  {
    hide Dumps, Runs, RunStart;
    var r := RunStart(comp, x);
    if r < |comp| {
      var e := RunEnd(comp, r, r);
      hide RunEnd;
      assert r + 3 <= e;
    }
  }

  /** The packets hold the component from `x` on, and take at most one byte per 128 and one more than it. */
  lemma {:induction false} PacketsData(comp: seq<byte>, x: nat)
    requires x <= |comp|
    ensures AllFit(Packets(comp, x)) && Data(Packets(comp, x)) == comp[x..]
    ensures |Bytes(Packets(comp, x))| <= (|comp| - x) + (|comp| - x) / 128 + 1
    decreases |comp| - x
  {
    hide *;
    PacketsUnfold(comp, x);
    var r, n := RunStart(comp, x), |comp|;
    if r == n {
      DumpsData(comp, x, n);
      assert comp[x..n] == comp[x..];
    } else {
      var e := RunEnd(comp, r, r);
      StretchData(comp, x, r, e);
      PacketsData(comp, e);
      AppendPackets(Stretch(comp, x, r, e), Packets(comp, e));
      AppendFits(Stretch(comp, x, r, e), Packets(comp, e));
      assert comp[x..e] + comp[e..] == comp[x..];
      SumOfParts(e - x, n - e, n - x);
    }
  }

  lemma SumOfParts(a: nat, b: nat, n: nat)
    requires n == a + b
    ensures a / 128 + b / 128 <= n / 128
  {
  }

  /** Every component reads back exactly, from a bounded number of bytes. */
  lemma ComponentRoundTrip(comp: seq<byte>, rest: seq<byte>)
    ensures Read(Encoded(comp) + rest, |comp|) == Some(Decoded(comp, rest))
    ensures |Encoded(comp)| <= |comp| + |comp| / 128 + 1
  {
    PacketsData(comp, 0);
    assert comp[0..] == comp;
    hide Packets, Bytes, Data, Read, AllFit;
    ReadPackets(Packets(comp, 0), rest);
  }

  // ----- a whole scanline

  type Rgbe = p: seq<byte> | |p| == 4 witness [0, 0, 0, 0]

  function Component(pixels: seq<Rgbe>, c: nat): (r: seq<byte>)
    requires c < 4
    ensures |r| == |pixels|
  {
    seq(|pixels|, x requires 0 <= x < |pixels| => pixels[x][c])
  }

  function Flat(pixels: seq<Rgbe>): seq<byte> {
    if pixels == [] then [] else Flat(pixels[..|pixels| - 1]) + pixels[|pixels| - 1]
  }

  /** Runs are used for widths from 8 to 32767. */
  predicate UsesRuns(width: nat) {
    8 <= width < 32768
  }

  function LineHeader(width: nat): seq<byte> {
    [2, 2, width / 256 % 256, width % 256]
  }

  function Scanline(pixels: seq<Rgbe>): seq<byte> {
    if !UsesRuns(|pixels|) then Flat(pixels)
    else
      LineHeader(|pixels|) + Encoded(Component(pixels, 0)) + Encoded(Component(pixels, 1)) +
      Encoded(Component(pixels, 2)) + Encoded(Component(pixels, 3))
  }

  // ----- a reader of scanlines

  datatype Line = Line(pixels: seq<Rgbe>, rest: seq<byte>)

  function ReadFlat(bytes: seq<byte>, n: nat): Option<Line> {
    if n == 0 then Some(Line([], bytes))
    else if |bytes| < 4 then None
    else
      match ReadFlat(bytes[4..], n - 1)
      case None => None
      case Some(l) => Some(Line([bytes[..4]] + l.pixels, l.rest))
  }

  function Zip(a: seq<byte>, b: seq<byte>, c: seq<byte>, d: seq<byte>): (r: seq<Rgbe>)
    requires |a| == |b| == |c| == |d|
    ensures |r| == |a|
  {
    seq(|a|, x requires 0 <= x < |a| => [a[x], b[x], c[x], d[x]])
  }

  /** Four components, one after the other. */
  function ReadComponents(bytes: seq<byte>, n: nat): Option<Line> {
    match Read(bytes, n)
    case None => None
    case Some(a) =>
      match Read(a.rest, n)
      case None => None
      case Some(b) =>
        match Read(b.rest, n)
        case None => None
        case Some(c) =>
          match Read(c.rest, n)
          case None => None
          case Some(d) =>
            if |a.data| == |b.data| == |c.data| == |d.data| then Some(Line(Zip(a.data, b.data, c.data, d.data), d.rest))
            else None
  }

  /** A line of a file whose width is known: from 8 to 32767 it starts with 2, 2 and the width, high byte first. */
  function ReadLine(bytes: seq<byte>, width: nat): Option<Line> {
    if width < 8 || width > 32767 then ReadFlat(bytes, width)
    else if |bytes| < 4 || bytes[0] != 2 || bytes[1] != 2 || 256 * (bytes[2] as nat) + bytes[3] != width then None
    else ReadComponents(bytes[4..], width)
  }

  lemma {:induction false} FlatFront(pixels: seq<Rgbe>)
    requires pixels != []
    ensures Flat(pixels) == pixels[0] + Flat(pixels[1..])
  {
    var n := |pixels|;
    if n > 1 {
      var init := pixels[..n - 1];
      FlatFront(init);
      assert init[0] == pixels[0] && init[1..] == pixels[1..][..n - 2];
      JoinThree(pixels[0], Flat(init[1..]), pixels[n - 1]);
    }
  }

  lemma {:induction false} FlatRoundTrip(pixels: seq<Rgbe>, rest: seq<byte>)
    ensures ReadFlat(Flat(pixels) + rest, |pixels|) == Some(Line(pixels, rest))
  {
    if pixels == [] {
      assert [] + rest == rest;
    } else {
      FlatFront(pixels);
      FlatRoundTrip(pixels[1..], rest);
      hide Flat;
      var b := Flat(pixels) + rest;
      assert b[..4] == pixels[0] && b[4..] == Flat(pixels[1..]) + rest;
      assert [pixels[0]] + pixels[1..] == pixels;
    }
  }

  lemma ZipComponents(pixels: seq<Rgbe>)
    ensures Zip(Component(pixels, 0), Component(pixels, 1), Component(pixels, 2), Component(pixels, 3)) == pixels
  {
    var z := Zip(Component(pixels, 0), Component(pixels, 1), Component(pixels, 2), Component(pixels, 3));
    forall x | 0 <= x < |pixels| ensures z[x] == pixels[x] {
      var p := pixels[x];
      assert p == [p[0], p[1], p[2], p[3]];
    }
  }

  lemma ComponentsRoundTrip(a: seq<byte>, b: seq<byte>, c: seq<byte>, d: seq<byte>, rest: seq<byte>)
    requires |a| == |b| == |c| == |d|
    ensures ReadComponents(Encoded(a) + (Encoded(b) + (Encoded(c) + (Encoded(d) + rest))), |a|) ==
            Some(Line(Zip(a, b, c, d), rest))
  {
    hide Read, Encoded, Zip;
    ComponentRoundTrip(a, Encoded(b) + (Encoded(c) + (Encoded(d) + rest)));
    ComponentRoundTrip(b, Encoded(c) + (Encoded(d) + rest));
    ComponentRoundTrip(c, Encoded(d) + rest);
    ComponentRoundTrip(d, rest);
  }

  lemma JoinFive(h: seq<byte>, a: seq<byte>, b: seq<byte>, c: seq<byte>, d: seq<byte>, rest: seq<byte>)
    ensures (h + a + b + c + d) + rest == h + (a + (b + (c + (d + rest))))
  {
  }

  lemma ReadHeader(width: nat, more: seq<byte>)
    requires UsesRuns(width)
    ensures ReadLine(LineHeader(width) + more, width) == ReadComponents(more, width)
  {
    hide ReadComponents, ReadFlat;
    var b := LineHeader(width) + more;
    assert b[..4] == LineHeader(width) && b[4..] == more;
  }

  /** Every scanline of any width reads back exactly. */
  lemma ScanlineRoundTrip(pixels: seq<Rgbe>, rest: seq<byte>)
    ensures ReadLine(Scanline(pixels) + rest, |pixels|) == Some(Line(pixels, rest))
  {
    if UsesRuns(|pixels|) {
      var a, b, c, d := Component(pixels, 0), Component(pixels, 1), Component(pixels, 2), Component(pixels, 3);
      var h := LineHeader(|pixels|);
      assert Scanline(pixels) == h + Encoded(a) + Encoded(b) + Encoded(c) + Encoded(d);
      hide *;
      JoinFive(h, Encoded(a), Encoded(b), Encoded(c), Encoded(d), rest);
      ReadHeader(|pixels|, Encoded(a) + (Encoded(b) + (Encoded(c) + (Encoded(d) + rest))));
      ComponentsRoundTrip(a, b, c, d, rest);
      ZipComponents(pixels);
    } else {
      FlatRoundTrip(pixels, rest);
      hide Flat, ReadFlat;
    }
  }

  // ----- the writer

  /** The sink, a growing byte sequence, and the scratch buffer of four components. */
  class HdrWriter {
    var out: seq<byte>

    constructor ()
      ensures out == []
    {
      out := [];
    }

    /** stbiw__write_run_data */
    method WriteRun(length: nat, value: byte)
      requires length <= 127
      modifies this
      ensures out == old(out) + PacketBytes(Run(length, value))
    {
      out := out + [UChar(length + 128)];
      out := out + [value];
    }

    /** stbiw__write_dump_data */
    method WriteDump(data: seq<byte>)
      requires |data| <= 128
      modifies this
      ensures out == old(out) + PacketBytes(Dump(data))
    {
      out := out + [UChar(|data|)];
      out := out + data;
    }

    /** Literals up to `r`. */
    method WriteDumps(comp: seq<byte>, x0: nat, r: nat)
      requires x0 <= r <= |comp|
      modifies this
      ensures out == old(out) + Bytes(Dumps(comp, x0, r))
    {
      hide *;
      var x := x0;
      while x < r
        invariant x0 <= x <= r
        invariant out + Bytes(Dumps(comp, x, r)) == old(out) + Bytes(Dumps(comp, x0, r))
      {
        ghost var was := out;
        var len := r - x;
        if len > 128 { len := 128; }
        WriteDump(comp[x..x + len]);
        DumpsNext(comp, x, r, len, was);
        x := x + len;
      }
      DumpsEnd(comp, r, out);
    }

    /** A run of `n` bytes from comp[x] on. */
    method WriteRuns(comp: seq<byte>, x0: nat, r: nat)
      requires x0 < r <= |comp| && forall k :: x0 <= k < r ==> comp[k] == comp[x0]
      modifies this
      ensures out == old(out) + Bytes(Runs(comp[x0], r - x0))
    {
      hide *;
      var x := x0;
      while x < r
        invariant x0 <= x <= r
        invariant out + Bytes(Runs(comp[x0], r - x)) == old(out) + Bytes(Runs(comp[x0], r - x0))
      {
        ghost var was := out;
        var len := r - x;
        if len > 127 { len := 127; }
        WriteRun(len, comp[x]);
        RunsNext(comp[x0], r - x, len, was);
        x := x + len;
      }
      RunsEnd(comp[x0], out);
    }

    /** The loop over one component. */
    method WriteComponent(comp: seq<byte>)
      modifies this
      ensures out == old(out) + Encoded(comp)
    {
      hide *;
      var x := 0;
      while x < |comp|
        invariant x <= |comp|
        invariant out + Bytes(Packets(comp, x)) == old(out) + Bytes(Packets(comp, 0))
        decreases |comp| - x
      {
        ghost var was := out;
        var r := FindRun(comp, x);
        WriteDumps(comp, x, r);
        PacketsUnfold(comp, x);
        if r < |comp| {
          var e := FindEnd(comp, r);
          WriteRuns(comp, r, e);
          StretchNext(comp, x, r, e, was);
          x := e;
        } else {
          LastStretch(comp, x, was);
          x := r;
        }
      }
      EncodedEnd(comp, out);
      EncodedIs(comp);
    }

    /** stbiw__write_hdr_scanline, from the pixels converted to RGBE on. */
    method WriteScanline(pixels: seq<Rgbe>)
      modifies this
      ensures out == old(out) + Scanline(pixels)
    {
      ScanlineIs(pixels);
      hide *;
      var width := |pixels|;
      if width < 8 || width >= 32768 {
        WriteFlat(pixels);
      } else {
        ghost var was := out;
        HeaderIs(width);
        out := out + [2, 2, width / 256 % 256, width % 256];
        var c := 0;
        while c < 4
          invariant c <= 4 && out == was + FirstComponents(pixels, c)
        {
          WriteComponent(Component(pixels, c));
          ComponentsNext(pixels, c, was);
          c := c + 1;
        }
      }
    }

    method WriteFlat(pixels: seq<Rgbe>)
      modifies this
      ensures out == old(out) + Flat(pixels)
    {
      var x := 0;
      assert pixels[..0] == [] && pixels[..|pixels|] == pixels;
      while x < |pixels|
        invariant x <= |pixels| && out == old(out) + Flat(pixels[..x])
      {
        assert pixels[..x + 1][..x] == pixels[..x];
        out := out + pixels[x];
        x := x + 1;
      }
    }
  }

  /** The search loop for three equal bytes. */
  method FindRun(comp: seq<byte>, x: nat) returns (r: nat)
    requires x <= |comp|
    ensures r == RunStart(comp, x)
  {
    r := x;
    while r + 2 < |comp|
      invariant x <= r <= |comp| && RunStart(comp, x) == RunStart(comp, r)
      decreases |comp| - r
    {
      if comp[r] == comp[r + 1] && comp[r] == comp[r + 2] { break; }
      r := r + 1;
    }
    if r + 2 >= |comp| {
      r := |comp|;
    }
  }

  /** The next byte after a run. */
  method FindEnd(comp: seq<byte>, x: nat) returns (r: nat)
    requires x < |comp|
    ensures r == RunEnd(comp, x, x)
  {
    r := x;
    while r < |comp| && comp[r] == comp[x]
      invariant x <= r <= |comp| && (forall k :: x <= k < r ==> comp[k] == comp[x])
      invariant RunEnd(comp, x, x) == RunEnd(comp, x, r)
    {
      r := r + 1;
    }
  }

  lemma DumpsNext(comp: seq<byte>, x: nat, r: nat, len: nat, was: seq<byte>)
    requires x < r <= |comp| && len == if r - x > 128 then 128 else r - x
    ensures (was + PacketBytes(Dump(comp[x..x + len]))) + Bytes(Dumps(comp, x + len, r)) ==
            was + Bytes(Dumps(comp, x, r))
  {
    hide PacketBytes, Bytes;
    FirstOf(Dump(comp[x..x + len]), Dumps(comp, x + len, r));
    JoinThree(was, PacketBytes(Dump(comp[x..x + len])), Bytes(Dumps(comp, x + len, r)));
  }

  lemma DumpsEnd(comp: seq<byte>, r: nat, now: seq<byte>)
    requires r <= |comp|
    ensures now + Bytes(Dumps(comp, r, r)) == now
  {
  }

  lemma RunsNext(value: byte, n: nat, len: nat, was: seq<byte>)
    requires n > 0 && len == if n > 127 then 127 else n
    ensures (was + PacketBytes(Run(len, value))) + Bytes(Runs(value, n - len)) == was + Bytes(Runs(value, n))
  {
    hide PacketBytes, Bytes;
    FirstOf(Run(len, value), Runs(value, n - len));
    JoinThree(was, PacketBytes(Run(len, value)), Bytes(Runs(value, n - len)));
  }

  lemma RunsEnd(value: byte, now: seq<byte>)
    ensures now + Bytes(Runs(value, 0)) == now
  {
  }

  lemma StretchNext(comp: seq<byte>, x: nat, r: nat, e: nat, was: seq<byte>)
    requires x <= r < e <= |comp| && Packets(comp, x) == Stretch(comp, x, r, e) + Packets(comp, e)
    ensures ((was + Bytes(Dumps(comp, x, r))) + Bytes(Runs(comp[r], e - r))) + Bytes(Packets(comp, e)) ==
            was + Bytes(Packets(comp, x))
  {
    hide *;
    StretchIs(comp, x, r, e);
    AppendPackets(Dumps(comp, x, r), Runs(comp[r], e - r));
    AppendPackets(Stretch(comp, x, r, e), Packets(comp, e));
    JoinThree(was, Bytes(Dumps(comp, x, r)), Bytes(Runs(comp[r], e - r)));
    JoinThree(was, Bytes(Stretch(comp, x, r, e)), Bytes(Packets(comp, e)));
  }

  lemma LastStretch(comp: seq<byte>, x: nat, was: seq<byte>)
    requires x <= |comp| && Packets(comp, x) == Dumps(comp, x, |comp|)
    ensures (was + Bytes(Dumps(comp, x, |comp|))) + Bytes(Packets(comp, |comp|)) == was + Bytes(Packets(comp, x))
  {
    EncodedEnd(comp, was + Bytes(Dumps(comp, x, |comp|)));
    hide *;
  }

  lemma EncodedEnd(comp: seq<byte>, now: seq<byte>)
    ensures now + Bytes(Packets(comp, |comp|)) == now
  {
    assert Packets(comp, |comp|) == [];
  }

  lemma EncodedIs(comp: seq<byte>)
    ensures Encoded(comp) == Bytes(Packets(comp, 0))
  {
    hide Bytes, Packets;
  }

  /** The header and the first `c` components. */
  function FirstComponents(pixels: seq<Rgbe>, c: nat): seq<byte>
    requires c <= 4
  {
    if c == 0 then LineHeader(|pixels|) else FirstComponents(pixels, c - 1) + Encoded(Component(pixels, c - 1))
  }

  lemma ComponentsNext(pixels: seq<Rgbe>, c: nat, was: seq<byte>)
    requires c < 4
    ensures (was + FirstComponents(pixels, c)) + Encoded(Component(pixels, c)) == was + FirstComponents(pixels, c + 1)
  {
    hide Encoded, Component;
    JoinThree(was, FirstComponents(pixels, c), Encoded(Component(pixels, c)));
  }

  lemma HeaderIs(width: nat)
    ensures LineHeader(width) == [2, 2, width / 256 % 256, width % 256]
  {
  }

  lemma ScanlineIs(pixels: seq<Rgbe>)
    ensures |pixels| < 8 || |pixels| >= 32768 ==> Scanline(pixels) == Flat(pixels)
    ensures 8 <= |pixels| < 32768 ==> Scanline(pixels) == FirstComponents(pixels, 4)
    ensures FirstComponents(pixels, 0) == LineHeader(|pixels|)
  {
    hide Encoded, Flat, Component;
    assert FirstComponents(pixels, 4) == FirstComponents(pixels, 3) + Encoded(Component(pixels, 3));
    assert FirstComponents(pixels, 3) == FirstComponents(pixels, 2) + Encoded(Component(pixels, 2));
    assert FirstComponents(pixels, 2) == FirstComponents(pixels, 1) + Encoded(Component(pixels, 1));
  }
}
