/** The Adler-32 checksum: section 2.2 of RFC 1950 (with the sample code of its section 9). */
module Adler32 {
  import opened Bits

  const MOD_ADLER: nat := 65521

  datatype Sums = Sums(s1: nat, s2: nat)

  /** The definition: both sums reduced after every byte. */
  function Adler(bs: seq<byte>): (r: Sums)
    ensures r.s1 < MOD_ADLER && r.s2 < MOD_ADLER
  {
    if bs == [] then Sums(1, 0)
    else
      var r := Adler(bs[..|bs| - 1]);
      var s1 := (r.s1 + bs[|bs| - 1]) % MOD_ADLER;
      Sums(s1, (r.s2 + s1) % MOD_ADLER)
  }

  /** A 32-bit number, most significant byte first. */
  function BigEndian32(x: nat): (r: seq<byte>)
    ensures |r| == 4
  {
    [x / 0x100_0000 % 256, x / 0x1_0000 % 256, x / 0x100 % 256, x % 256]
  }

  /** The value RFC 1950 stores: s2 * 65536 + s1, most significant byte first. */
  function Trailer(bs: seq<byte>): (r: seq<byte>)
    ensures |r| == 4
  {
    BigEndian32(Adler(bs).s2 * 65536 + Adler(bs).s1)
  }

  lemma AddMod(a: nat, b: nat)
    ensures (a % MOD_ADLER + b) % MOD_ADLER == (a + b) % MOD_ADLER
  {
    var q, r := a / MOD_ADLER, a % MOD_ADLER;
    var q', r' := (r + b) / MOD_ADLER, (r + b) % MOD_ADLER;
    assert a + b == (q + q') * MOD_ADLER + r';
    QuotientUnique(a + b, MOD_ADLER, q + q', r');
  }

  /** The two sums without any reduction: of the bytes and 1, and of all the first sums on the way. */
  function Unreduced(bs: seq<byte>): Sums {
    if bs == [] then Sums(1, 0)
    else
      var r := Unreduced(bs[..|bs| - 1]);
      Sums(r.s1 + bs[|bs| - 1], r.s2 + r.s1 + bs[|bs| - 1])
  }

  function Total(bs: seq<byte>): nat {
    if bs == [] then 0 else Total(bs[..|bs| - 1]) + bs[|bs| - 1]
  }

  /** The checksum is that of section 2.2 of RFC 1950: one more than the sum of the bytes, modulo 65521. */
  lemma {:induction false} AdlerIsReduced(bs: seq<byte>)
    ensures Adler(bs) == Sums(Unreduced(bs).s1 % 65521, Unreduced(bs).s2 % 65521)
    ensures Unreduced(bs).s1 == 1 + Total(bs)
  {
    if bs != [] {
      var k := |bs| - 1;
      AdlerIsReduced(bs[..k]);
      DeferredStep(bs, k, Unreduced(bs[..k]).s1, Unreduced(bs[..k]).s2);
      assert bs[..k + 1] == bs;
    }
  }

  /** Each byte adds itself to the first sum, and itself as often as bytes from it on are left to the second. */
  lemma {:induction false} SecondSum(bs: seq<byte>, b: byte)
    ensures Unreduced(bs + [b]).s2 == Unreduced(bs).s2 + 1 + Total(bs + [b])
  {
    AdlerIsReduced(bs);
    assert (bs + [b])[..|bs|] == bs;
  }

  /** One byte added to unreduced sums. */
  lemma DeferredStep(bs: seq<byte>, k: nat, s1: nat, s2: nat)
    requires k < |bs| && Adler(bs[..k]) == Sums(s1 % MOD_ADLER, s2 % MOD_ADLER)
    ensures Adler(bs[..k + 1]) == Sums((s1 + bs[k]) % MOD_ADLER, (s2 + (s1 + bs[k])) % MOD_ADLER)
  {
    assert bs[..k + 1][..k] == bs[..k];
    AddMod(s1, bs[k]);
    var t := (s1 + bs[k]) % MOD_ADLER;
    AddMod(s2, t);
    AddMod(s1 + bs[k], s2);
    AddMod(t, s2);
  }

  lemma ProductBound(i: nat, n: nat)
    requires i <= n
    ensures i * (i + 1) <= n * (n + 1)
  {
    MulMono(i, n, i + 1);
    MulMono(i + 1, n + 1, n);
  }

  /** How far unreduced sums can grow over `i` bytes. */
  ghost predicate Bounded(s1: nat, s2: nat, i: nat) {
    && s1 <= 65520 + 255 * i
    && 2 * s2 <= 2 * 65520 * (i + 1) + 255 * (i * (i + 1))
  }

  /** Within a block of 5552 bytes neither 32-bit sum wraps around. */
  lemma BoundedStep(s1: nat, s2: nat, i: nat, b: byte)
    requires i < 5552 && Bounded(s1, s2, i)
    ensures Bounded(s1 + b, s2 + (s1 + b), i + 1)
    ensures s1 + b < 0x1_0000_0000 && s2 + (s1 + b) < 0x1_0000_0000
  {
    assert (i + 1) * (i + 2) == i * (i + 1) + 2 * (i + 1);
    ProductBound(i + 1, 5552);
  }

  /** The compressor's checksum: reduced once per block of at most 5552 bytes, the first block possibly empty. */
  method Checksum(data: seq<byte>) returns (s1: nat, s2: nat)
    ensures Adler(data) == Sums(s1, s2)
  {
    hide Adler, Bounded;
    s1, s2 := 1, 0;
    var blocklen: nat := |data| % 5552;
    var j: nat := 0;
    ghost var blocks: nat := |data| / 5552;
    assert Adler(data[..0]) == Sums(1, 0) by { EmptySums(data[..0]); }
    while j < |data|
      invariant blocklen <= 5552
      invariant |data| - j == 5552 * blocks + (if blocklen < 5552 then blocklen else 0)
      invariant s1 < MOD_ADLER && s2 < MOD_ADLER
      invariant Adler(data[..j]) == Sums(s1, s2)
      decreases blocks, 5552 - blocklen
    {
      assert j + blocklen <= |data|;
      var i: nat := 0;
      SmallSums(s1, s2);
      while i < blocklen
        invariant i <= blocklen && Bounded(s1, s2, i)
        invariant Adler(data[..j + i]) == Sums(s1 % MOD_ADLER, s2 % MOD_ADLER)
      {
        DeferredStep(data, j + i, s1, s2);
        BoundedStep(s1, s2, i, data[j + i]);
        s1 := s1 + data[j + i];
        s2 := s2 + s1;
        assert s1 < 0x1_0000_0000 && s2 < 0x1_0000_0000;
        i := i + 1;
      }
      s1, s2 := s1 % MOD_ADLER, s2 % MOD_ADLER;
      j := j + blocklen;
      if blocklen == 5552 { blocks := blocks - 1; }
      blocklen := 5552;
    }
    assert data[..|data|] == data;
  }

  lemma EmptySums(bs: seq<byte>)
    requires bs == []
    ensures Adler(bs) == Sums(1, 0)
  {
  }

  lemma SmallSums(s1: nat, s2: nat)
    requires s1 < MOD_ADLER && s2 < MOD_ADLER
    ensures Bounded(s1, s2, 0)
    ensures s1 % MOD_ADLER == s1 && s2 % MOD_ADLER == s2
  {
  }

  lemma TrailerBytes(s1: nat, s2: nat)
    requires s1 < MOD_ADLER && s2 < MOD_ADLER
    ensures BigEndian32(s2 * 65536 + s1) == [s2 / 256 % 256, s2 % 256, s1 / 256 % 256, s1 % 256]
  {
    var x := s2 * 65536 + s1;
    assert x / 0x1_0000 == s2;
    assert x / 0x100_0000 == s2 / 256;
    assert x / 0x100 == s2 * 256 + s1 / 256;
  }
}
