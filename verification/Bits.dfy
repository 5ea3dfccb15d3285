/** Bytes, bit strings and the integer operators the encoders apply to them. */
module Bits {

  type byte = x: int | 0 <= x < 256

  datatype Option<+T> = None | Some(value: T)

  function Abs(x: int): nat {
    if x < 0 then -x else x
  }

  /** The cast to unsigned char. */
  function UChar(x: int): byte {
    x % 256
  }

  lemma JoinThree<T>(a: seq<T>, b: seq<T>, c: seq<T>)
    ensures (a + b) + c == a + (b + c)
  {
  }

  function Pow2(n: nat): (r: nat)
    ensures r > 0
  {
    if n == 0 then 1 else 2 * Pow2(n - 1)
  }

  lemma {:induction false} Pow2Add(a: nat, b: nat)
    ensures Pow2(a + b) == Pow2(a) * Pow2(b)
  {
    if a > 0 {
      Pow2Add(a - 1, b);
      assert Pow2(a + b) == 2 * Pow2(a + b - 1);
      assert 2 * (Pow2(a - 1) * Pow2(b)) == (2 * Pow2(a - 1)) * Pow2(b);
    }
  }

  lemma {:induction false} Pow2Monotone(a: nat, b: nat)
    requires a <= b
    ensures Pow2(a) <= Pow2(b)
  {
    if a < b { Pow2Monotone(a, b - 1); }
  }

  /** Machine `|` on non-negative operands, bit by bit. */
  function Or(a: nat, b: nat): nat {
    if a == 0 && b == 0 then 0
    else 2 * Or(a / 2, b / 2) + (if a % 2 == 1 || b % 2 == 1 then 1 else 0)
  }

  /** Machine `^` on non-negative operands, bit by bit. */
  function Xor(a: nat, b: nat): nat {
    if a == 0 && b == 0 then 0
    else 2 * Xor(a / 2, b / 2) + (if a % 2 != b % 2 then 1 else 0)
  }

  /** The low `n` bits of `x`, least significant first. */
  function LSB(x: nat, n: nat): (r: seq<bool>)
    ensures |r| == n
  {
    if n == 0 then [] else [x % 2 == 1] + LSB(x / 2, n - 1)
  }

  /** The low `n` bits of `x`, most significant first. */
  function MSB(x: nat, n: nat): (r: seq<bool>)
    ensures |r| == n
  {
    if n == 0 then [] else MSB(x / 2, n - 1) + [x % 2 == 1]
  }

  function FromLSB(bits: seq<bool>): (r: nat)
    ensures r < Pow2(|bits|)
  {
    if bits == [] then 0 else (if bits[0] then 1 else 0) + 2 * FromLSB(bits[1..])
  }

  function FromMSB(bits: seq<bool>): (r: nat)
    ensures r < Pow2(|bits|)
  {
    if bits == [] then 0 else 2 * FromMSB(bits[..|bits| - 1]) + (if bits[|bits| - 1] then 1 else 0)
  }

  lemma {:induction false} FromLSBOfLSB(x: nat, n: nat)
    requires x < Pow2(n)
    ensures FromLSB(LSB(x, n)) == x
  {
    if n > 0 {
      FromLSBOfLSB(x / 2, n - 1);
      assert LSB(x, n)[1..] == LSB(x / 2, n - 1);
    }
  }

  lemma {:induction false} LSBOfFromLSB(bits: seq<bool>)
    ensures LSB(FromLSB(bits), |bits|) == bits
  {
    if bits != [] {
      LSBOfFromLSB(bits[1..]);
      var v := FromLSB(bits[1..]);
      assert FromLSB(bits) / 2 == v;
      assert bits == [bits[0]] + bits[1..];
    }
  }

  lemma {:induction false} FromMSBOfMSB(x: nat, n: nat)
    requires x < Pow2(n)
    ensures FromMSB(MSB(x, n)) == x
  {
    if n > 0 {
      FromMSBOfMSB(x / 2, n - 1);
      assert MSB(x, n)[..n - 1] == MSB(x / 2, n - 1);
    }
  }

  lemma {:induction false} MSBOfFromMSB(bits: seq<bool>)
    ensures MSB(FromMSB(bits), |bits|) == bits
  {
    if bits != [] {
      var init := bits[..|bits| - 1];
      MSBOfFromMSB(init);
      assert FromMSB(bits) / 2 == FromMSB(init);
      assert bits == init + [bits[|bits| - 1]];
    }
  }

  /** The leading bits of an MSB-first code are the code shifted right. */
  lemma {:induction false} MSBPrefix(x: nat, n: nat, k: nat)
    ensures MSB(x, n + k)[..n] == MSB(x / Pow2(k), n)
    decreases k
  {
    if k == 0 {
      assert MSB(x, n)[..n] == MSB(x, n);
    } else {
      MSBPrefix(x / 2, n, k - 1);
      assert MSB(x, n + k)[..n + k - 1] == MSB(x / 2, n + k - 1);
      assert MSB(x, n + k)[..n] == MSB(x / 2, n + k - 1)[..n];
      DivDiv(x, Pow2(k - 1));
    }
  }

  lemma DivDiv(x: nat, p: nat)
    requires p > 0
    ensures x / 2 / p == x / (2 * p)
  {
    var q := x / 2 / p;
    var r := x / 2 % p;
    assert x / 2 == q * p + r;
    assert x == 2 * (q * p + r) + x % 2;
    assert x == q * (2 * p) + (2 * r + x % 2);
    QuotientUnique(x, 2 * p, q, 2 * r + x % 2);
  }

  lemma QuotientUnique(x: int, d: int, q: int, r: int)
    requires d > 0 && 0 <= r < d && x == q * d + r
    ensures x / d == q && x % d == r
  {
    var q' := x / d;
    var r' := x % d;
    assert x == q' * d + r';
    assert (q - q') * d == r' - r;
    if q > q' {
      MulMono(1, q - q', d);
    } else if q < q' {
      assert (q' - q) * d == r - r';
      MulMono(1, q' - q, d);
    }
  }

  lemma MulMono(a: int, b: int, d: int)
    requires a <= b && d >= 0
    ensures a * d <= b * d
  {
  }

  lemma {:induction false} LSBConcat(x: nat, y: nat, c: nat, n: nat)
    requires x < Pow2(c)
    ensures LSB(x + y * Pow2(c), c + n) == LSB(x, c) + LSB(y, n)
  {
    if c == 0 {
      assert LSB(x, 0) + LSB(y, n) == LSB(y, n);
    } else {
      var p := Pow2(c - 1);
      var z := x + y * Pow2(c);
      assert y * Pow2(c) == 2 * (y * p);
      assert z % 2 == x % 2 && z / 2 == x / 2 + y * p;
      LSBConcat(x / 2, y, c - 1, n);
      assert LSB(z, c + n) == [z % 2 == 1] + LSB(z / 2, c + n - 1);
    }
  }

  /** Operands without a common set bit: `|` adds. */
  lemma {:induction false} OrDisjoint(x: nat, y: nat, c: nat)
    requires x < Pow2(c)
    ensures Or(x, y * Pow2(c)) == x + y * Pow2(c)
  {
    if c == 0 {
      OrZero(y);
    } else {
      var p := Pow2(c - 1);
      var z := y * Pow2(c);
      assert z == 2 * (y * p);
      assert z % 2 == 0 && z / 2 == y * p;
      OrDisjoint(x / 2, y, c - 1);
    }
  }

  lemma {:induction false} OrZero(y: nat)
    ensures Or(0, y) == y
  {
    if y > 0 { OrZero(y / 2); }
  }

  function BitsOfBytes(bs: seq<byte>): (r: seq<bool>)
    ensures |r| == 8 * |bs|
  {
    if bs == [] then [] else LSB(bs[0], 8) + BitsOfBytes(bs[1..])
  }

  lemma {:induction false} BitsOfBytesAppend(a: seq<byte>, b: seq<byte>)
    ensures BitsOfBytes(a + b) == BitsOfBytes(a) + BitsOfBytes(b)
  {
    if a == [] {
      assert a + b == b;
    } else {
      assert (a + b)[1..] == a[1..] + b;
      BitsOfBytesAppend(a[1..], b);
    }
  }

  lemma {:induction false} BitsOfBytesTake(bs: seq<byte>, rest: seq<bool>)
    requires bs != []
    ensures BitsOfBytes(bs) + rest == LSB(bs[0], 8) + (BitsOfBytes(bs[1..]) + rest)
    ensures (BitsOfBytes(bs) + rest)[..8] == LSB(bs[0], 8)
    ensures (BitsOfBytes(bs) + rest)[8..] == BitsOfBytes(bs[1..]) + rest
  {
  }

  function Zeros(n: nat): (r: seq<bool>)
    ensures |r| == n && forall k :: 0 <= k < n ==> !r[k]
  {
    seq(n, _ => false)
  }

  function PackedByte(bits: seq<bool>): byte
    requires |bits| <= 8
  {
    Pow2Monotone(|bits|, 8);
    assert Pow2(8) == 256;
    FromLSB(bits)
  }

  /** A bit string packed into bytes, least significant bit first, the last byte completed with zero bits. */
  function Pack(bits: seq<bool>): seq<byte> {
    if bits == [] then []
    else if |bits| < 8 then [PackedByte(bits)]
    else [PackedByte(bits[..8])] + Pack(bits[8..])
  }

  lemma {:induction false} FromLSBPadded(bits: seq<bool>, k: nat)
    ensures FromLSB(bits + Zeros(k)) == FromLSB(bits)
    decreases |bits| + k
  {
    var all := bits + Zeros(k);
    if bits != [] {
      assert all[1..] == bits[1..] + Zeros(k);
      FromLSBPadded(bits[1..], k);
    } else if k > 0 {
      assert all[1..] == [] + Zeros(k - 1);
      FromLSBPadded([], k - 1);
    }
  }

  lemma PackedByteBits(bits: seq<bool>, k: nat)
    requires |bits| + k == 8
    ensures LSB(PackedByte(bits), 8) == bits + Zeros(k)
  {
    FromLSBPadded(bits, k);
    LSBOfFromLSB(bits + Zeros(k));
  }

  lemma {:induction false} BitsOfPack(bits: seq<bool>) returns (k: nat)
    ensures k < 8 && BitsOfBytes(Pack(bits)) == bits + Zeros(k)
  {
    if bits == [] {
      k := 0;
    } else if |bits| < 8 {
      k := 8 - |bits|;
      PackedByteBits(bits, k);
      assert Pack(bits)[1..] == [];
    } else {
      k := BitsOfPack(bits[8..]);
      PackedByteBits(bits[..8], 0);
      assert Pack(bits)[1..] == Pack(bits[8..]);
      assert bits[..8] + Zeros(0) + (bits[8..] + Zeros(k)) == bits + Zeros(k);
    }
  }

  lemma {:induction false} BitsOfBytesInjective(a: seq<byte>, b: seq<byte>)
    requires BitsOfBytes(a) == BitsOfBytes(b)
    ensures a == b
  {
    assert |a| == |b|;
    if a != [] {
      assert LSB(a[0], 8) == BitsOfBytes(a)[..8] == LSB(b[0], 8);
      assert BitsOfBytes(a[1..]) == BitsOfBytes(a)[8..] == BitsOfBytes(b[1..]);
      BitsOfBytesInjective(a[1..], b[1..]);
      assert Pow2(8) == 256;
      FromLSBOfLSB(a[0], 8);
      FromLSBOfLSB(b[0], 8);
    }
  }

  /** Bytes that hold `bits` and fewer than eight zero bits after them are `bits` packed. */
  lemma PackUnique(bs: seq<byte>, bits: seq<bool>, k: nat)
    requires k < 8 && BitsOfBytes(bs) == bits + Zeros(k)
    ensures bs == Pack(bits)
  {
    var j := BitsOfPack(bits);
    assert |bits| + k == 8 * |bs| && |bits| + j == 8 * |Pack(bits)|;
    BitsOfBytesInjective(bs, Pack(bits));
  }
}
