/** The CRC-32 of PNG chunks: section 3.4 of RFC 2083, with the bit-at-a-time division its section 15 tabulates. */
module Crc32 {
  import opened Bits

  // ----- the definition

  /** One bit of the division by the CRC polynomial, least significant bit first. */
  function ShiftBit(c: bv32): bv32 {
    if c & 1 == 1 then 0xEDB88320 ^ (c >> 1) else c >> 1
  }

  function ShiftBits(c: bv32, n: nat): bv32
    decreases n
  {
    if n == 0 then c else ShiftBits(ShiftBit(c), n - 1)
  }

  function Xor32(x: bv32, y: bv32): bv32 {
    x ^ y
  }

  function Widen(b: bv8): bv32 {
    b as bv32
  }

  function ToBv8(b: byte): bv8 {
    b as bv8
  }

  /** A byte enters at the low end and is divided out bit by bit. */
  function Update(c: bv32, b: byte): bv32 {
    ShiftBits(Xor32(c, Widen(ToBv8(b))), 8)
  }

  function Register(bs: seq<byte>): bv32 {
    if bs == [] then 0xFFFFFFFF else Update(Register(bs[..|bs| - 1]), bs[|bs| - 1])
  }

  function Down(c: bv32): bv32 {
    c >> 8
  }

  function LowBits(w: bv32): bv8 {
    (w & 0xFF) as bv8
  }


  function FromBv8(b: bv8): byte {
    b as byte
  }

  /** The unsigned value of a word. */
  function Number(w: bv32): nat {
    FromBv8(LowBits(w)) + 256 * FromBv8(LowBits(Down(w))) + 65536 * FromBv8(LowBits(Down(Down(w)))) +
    16777216 * FromBv8(LowBits(Down(Down(Down(w)))))
  }

  /** The register starts as all ones and is complemented at the end. */
  function Crc(bs: seq<byte>): nat {
    Number(!Register(bs))
  }

  // ----- the division is linear

  lemma XorShift(x: bv32, y: bv32)
    ensures (x ^ y) >> 1 == (x >> 1) ^ (y >> 1)
    ensures (x ^ y) & 1 == (x & 1) ^ (y & 1)
  {
  }

  lemma LowBit(x: bv32)
    ensures x & 1 == 0 || x & 1 == 1
  {
  }

  lemma XorLaws(p: bv32, x: bv32, y: bv32)
    ensures (p ^ x) ^ (p ^ y) == x ^ y
    ensures (p ^ x) ^ y == p ^ (x ^ y)
    ensures x ^ (p ^ y) == p ^ (x ^ y)
  {
  }

  lemma ShiftBitLinear(x: bv32, y: bv32)
    ensures ShiftBit(x ^ y) == ShiftBit(x) ^ ShiftBit(y)
  {
    XorShift(x, y);
    LowBit(x);
    LowBit(y);
    if x & 1 == 1 {
      if y & 1 == 1 { XorLaws(0xEDB88320, x >> 1, y >> 1); } else { XorLaws(0xEDB88320, x >> 1, y >> 1); }
    } else if y & 1 == 1 {
      XorLaws(0xEDB88320, x >> 1, y >> 1);
    }
  }

  lemma ShiftBitXor(x: bv32, y: bv32)
    ensures ShiftBit(Xor32(x, y)) == Xor32(ShiftBit(x), ShiftBit(y))
  {
    hide ShiftBit;
    ShiftBitLinear(x, y);
  }

  lemma {:induction false} ShiftBitsLinear(x: bv32, y: bv32, n: nat)
    ensures ShiftBits(Xor32(x, y), n) == Xor32(ShiftBits(x, n), ShiftBits(y, n))
    decreases n
  {
    hide ShiftBit, ShiftBits, Xor32;
    if n == 0 {
      NoShift(x);
      NoShift(y);
      NoShift(Xor32(x, y));
    } else {
      ShiftBitXor(x, y);
      ShiftBitsLinear(ShiftBit(x), ShiftBit(y), n - 1);
      ShiftBitsStep(x, n);
      ShiftBitsStep(y, n);
      ShiftBitsStep(Xor32(x, y), n);
    }
  }

  lemma NoShift(x: bv32)
    ensures ShiftBits(x, 0) == x
  {
  }

  lemma ShiftBitsStep(x: bv32, n: nat)
    requires n > 0
    ensures ShiftBits(x, n) == ShiftBits(ShiftBit(x), n - 1)
  {
    hide ShiftBit;
  }

  // ----- the table

  function Row0(k: bv8): bv32 {
    match k
    case 0 => 0x00000000 case 1 => 0x77073096 case 2 => 0xEE0E612C case 3 => 0x990951BA
    case 4 => 0x076DC419 case 5 => 0x706AF48F case 6 => 0xE963A535 case 7 => 0x9E6495A3
    case 8 => 0x0EDB8832 case 9 => 0x79DCB8A4 case 10 => 0xE0D5E91E case 11 => 0x97D2D988
    case 12 => 0x09B64C2B case 13 => 0x7EB17CBD case 14 => 0xE7B82D07 case _ => 0x90BF1D91
  }

  function Row1(k: bv8): bv32 {
    match k
    case 0 => 0x1DB71064 case 1 => 0x6AB020F2 case 2 => 0xF3B97148 case 3 => 0x84BE41DE
    case 4 => 0x1ADAD47D case 5 => 0x6DDDE4EB case 6 => 0xF4D4B551 case 7 => 0x83D385C7
    case 8 => 0x136C9856 case 9 => 0x646BA8C0 case 10 => 0xFD62F97A case 11 => 0x8A65C9EC
    case 12 => 0x14015C4F case 13 => 0x63066CD9 case 14 => 0xFA0F3D63 case _ => 0x8D080DF5
  }

  function Row2(k: bv8): bv32 {
    match k
    case 0 => 0x3B6E20C8 case 1 => 0x4C69105E case 2 => 0xD56041E4 case 3 => 0xA2677172
    case 4 => 0x3C03E4D1 case 5 => 0x4B04D447 case 6 => 0xD20D85FD case 7 => 0xA50AB56B
    case 8 => 0x35B5A8FA case 9 => 0x42B2986C case 10 => 0xDBBBC9D6 case 11 => 0xACBCF940
    case 12 => 0x32D86CE3 case 13 => 0x45DF5C75 case 14 => 0xDCD60DCF case _ => 0xABD13D59
  }

  function Row3(k: bv8): bv32 {
    match k
    case 0 => 0x26D930AC case 1 => 0x51DE003A case 2 => 0xC8D75180 case 3 => 0xBFD06116
    case 4 => 0x21B4F4B5 case 5 => 0x56B3C423 case 6 => 0xCFBA9599 case 7 => 0xB8BDA50F
    case 8 => 0x2802B89E case 9 => 0x5F058808 case 10 => 0xC60CD9B2 case 11 => 0xB10BE924
    case 12 => 0x2F6F7C87 case 13 => 0x58684C11 case 14 => 0xC1611DAB case _ => 0xB6662D3D
  }

  function Row4(k: bv8): bv32 {
    match k
    case 0 => 0x76DC4190 case 1 => 0x01DB7106 case 2 => 0x98D220BC case 3 => 0xEFD5102A
    case 4 => 0x71B18589 case 5 => 0x06B6B51F case 6 => 0x9FBFE4A5 case 7 => 0xE8B8D433
    case 8 => 0x7807C9A2 case 9 => 0x0F00F934 case 10 => 0x9609A88E case 11 => 0xE10E9818
    case 12 => 0x7F6A0DBB case 13 => 0x086D3D2D case 14 => 0x91646C97 case _ => 0xE6635C01
  }

  function Row5(k: bv8): bv32 {
    match k
    case 0 => 0x6B6B51F4 case 1 => 0x1C6C6162 case 2 => 0x856530D8 case 3 => 0xF262004E
    case 4 => 0x6C0695ED case 5 => 0x1B01A57B case 6 => 0x8208F4C1 case 7 => 0xF50FC457
    case 8 => 0x65B0D9C6 case 9 => 0x12B7E950 case 10 => 0x8BBEB8EA case 11 => 0xFCB9887C
    case 12 => 0x62DD1DDF case 13 => 0x15DA2D49 case 14 => 0x8CD37CF3 case _ => 0xFBD44C65
  }

  function Row6(k: bv8): bv32 {
    match k
    case 0 => 0x4DB26158 case 1 => 0x3AB551CE case 2 => 0xA3BC0074 case 3 => 0xD4BB30E2
    case 4 => 0x4ADFA541 case 5 => 0x3DD895D7 case 6 => 0xA4D1C46D case 7 => 0xD3D6F4FB
    case 8 => 0x4369E96A case 9 => 0x346ED9FC case 10 => 0xAD678846 case 11 => 0xDA60B8D0
    case 12 => 0x44042D73 case 13 => 0x33031DE5 case 14 => 0xAA0A4C5F case _ => 0xDD0D7CC9
  }

  function Row7(k: bv8): bv32 {
    match k
    case 0 => 0x5005713C case 1 => 0x270241AA case 2 => 0xBE0B1010 case 3 => 0xC90C2086
    case 4 => 0x5768B525 case 5 => 0x206F85B3 case 6 => 0xB966D409 case 7 => 0xCE61E49F
    case 8 => 0x5EDEF90E case 9 => 0x29D9C998 case 10 => 0xB0D09822 case 11 => 0xC7D7A8B4
    case 12 => 0x59B33D17 case 13 => 0x2EB40D81 case 14 => 0xB7BD5C3B case _ => 0xC0BA6CAD
  }

  function Row8(k: bv8): bv32 {
    match k
    case 0 => 0xEDB88320 case 1 => 0x9ABFB3B6 case 2 => 0x03B6E20C case 3 => 0x74B1D29A
    case 4 => 0xEAD54739 case 5 => 0x9DD277AF case 6 => 0x04DB2615 case 7 => 0x73DC1683
    case 8 => 0xE3630B12 case 9 => 0x94643B84 case 10 => 0x0D6D6A3E case 11 => 0x7A6A5AA8
    case 12 => 0xE40ECF0B case 13 => 0x9309FF9D case 14 => 0x0A00AE27 case _ => 0x7D079EB1
  }

  function Row9(k: bv8): bv32 {
    match k
    case 0 => 0xF00F9344 case 1 => 0x8708A3D2 case 2 => 0x1E01F268 case 3 => 0x6906C2FE
    case 4 => 0xF762575D case 5 => 0x806567CB case 6 => 0x196C3671 case 7 => 0x6E6B06E7
    case 8 => 0xFED41B76 case 9 => 0x89D32BE0 case 10 => 0x10DA7A5A case 11 => 0x67DD4ACC
    case 12 => 0xF9B9DF6F case 13 => 0x8EBEEFF9 case 14 => 0x17B7BE43 case _ => 0x60B08ED5
  }

  function RowA(k: bv8): bv32 {
    match k
    case 0 => 0xD6D6A3E8 case 1 => 0xA1D1937E case 2 => 0x38D8C2C4 case 3 => 0x4FDFF252
    case 4 => 0xD1BB67F1 case 5 => 0xA6BC5767 case 6 => 0x3FB506DD case 7 => 0x48B2364B
    case 8 => 0xD80D2BDA case 9 => 0xAF0A1B4C case 10 => 0x36034AF6 case 11 => 0x41047A60
    case 12 => 0xDF60EFC3 case 13 => 0xA867DF55 case 14 => 0x316E8EEF case _ => 0x4669BE79
  }

  function RowB(k: bv8): bv32 {
    match k
    case 0 => 0xCB61B38C case 1 => 0xBC66831A case 2 => 0x256FD2A0 case 3 => 0x5268E236
    case 4 => 0xCC0C7795 case 5 => 0xBB0B4703 case 6 => 0x220216B9 case 7 => 0x5505262F
    case 8 => 0xC5BA3BBE case 9 => 0xB2BD0B28 case 10 => 0x2BB45A92 case 11 => 0x5CB36A04
    case 12 => 0xC2D7FFA7 case 13 => 0xB5D0CF31 case 14 => 0x2CD99E8B case _ => 0x5BDEAE1D
  }

  function RowC(k: bv8): bv32 {
    match k
    case 0 => 0x9B64C2B0 case 1 => 0xEC63F226 case 2 => 0x756AA39C case 3 => 0x026D930A
    case 4 => 0x9C0906A9 case 5 => 0xEB0E363F case 6 => 0x72076785 case 7 => 0x05005713
    case 8 => 0x95BF4A82 case 9 => 0xE2B87A14 case 10 => 0x7BB12BAE case 11 => 0x0CB61B38
    case 12 => 0x92D28E9B case 13 => 0xE5D5BE0D case 14 => 0x7CDCEFB7 case _ => 0x0BDBDF21
  }

  function RowD(k: bv8): bv32 {
    match k
    case 0 => 0x86D3D2D4 case 1 => 0xF1D4E242 case 2 => 0x68DDB3F8 case 3 => 0x1FDA836E
    case 4 => 0x81BE16CD case 5 => 0xF6B9265B case 6 => 0x6FB077E1 case 7 => 0x18B74777
    case 8 => 0x88085AE6 case 9 => 0xFF0F6A70 case 10 => 0x66063BCA case 11 => 0x11010B5C
    case 12 => 0x8F659EFF case 13 => 0xF862AE69 case 14 => 0x616BFFD3 case _ => 0x166CCF45
  }

  function RowE(k: bv8): bv32 {
    match k
    case 0 => 0xA00AE278 case 1 => 0xD70DD2EE case 2 => 0x4E048354 case 3 => 0x3903B3C2
    case 4 => 0xA7672661 case 5 => 0xD06016F7 case 6 => 0x4969474D case 7 => 0x3E6E77DB
    case 8 => 0xAED16A4A case 9 => 0xD9D65ADC case 10 => 0x40DF0B66 case 11 => 0x37D83BF0
    case 12 => 0xA9BCAE53 case 13 => 0xDEBB9EC5 case 14 => 0x47B2CF7F case _ => 0x30B5FFE9
  }

  function RowF(k: bv8): bv32 {
    match k
    case 0 => 0xBDBDF21C case 1 => 0xCABAC28A case 2 => 0x53B39330 case 3 => 0x24B4A3A6
    case 4 => 0xBAD03605 case 5 => 0xCDD70693 case 6 => 0x54DE5729 case 7 => 0x23D967BF
    case 8 => 0xB3667A2E case 9 => 0xC4614AB8 case 10 => 0x5D681B02 case 11 => 0x2A6F2B94
    case 12 => 0xB40BBE37 case 13 => 0xC30C8EA1 case 14 => 0x5A05DF1B case _ => 0x2D02EF8D
  }

  /** crc_table, sixteen rows of sixteen. */
  function Table(i: bv8): bv32 {
    var k := i & 0x0F;
    match i >> 4
    case 0 => Row0(k) case 1 => Row1(k) case 2 => Row2(k) case 3 => Row3(k)
    case 4 => Row4(k) case 5 => Row5(k) case 6 => Row6(k) case 7 => Row7(k)
    case 8 => Row8(k) case 9 => Row9(k) case 10 => RowA(k) case 11 => RowB(k)
    case 12 => RowC(k) case 13 => RowD(k) case 14 => RowE(k) case _ => RowF(k)
  }

  /** `b`, when bit `m` of `i` is set. */
  function Part(i: bv8, m: bv8, b: bv32): bv32 {
    if i & m == 0 then 0 else b
  }

  /** The combination of the eight power-of-two entries that the bits of `i` select. */
  function Span(i: bv8): bv32 {
    Xor32(Xor32(Xor32(Part(i, 1, 0x77073096), Part(i, 2, 0xEE0E612C)),
                Xor32(Part(i, 4, 0x076DC419), Part(i, 8, 0x0EDB8832))),
          Xor32(Xor32(Part(i, 16, 0x1DB71064), Part(i, 32, 0x3B6E20C8)),
                Xor32(Part(i, 64, 0x76DC4190), Part(i, 128, 0xEDB88320))))
  }

  lemma TableIsSpan0(i: bv8)
    requires i < 64
    ensures Table(i) == Span(i)
  {
    if i < 16 {
      assert i >> 4 == 0;
    } else if i < 32 {
      assert i >> 4 == 1;
    } else if i < 48 {
      assert i >> 4 == 2;
    } else {
      assert i >> 4 == 3;
    }
  }

  lemma TableIsSpan1(i: bv8)
    requires 64 <= i < 128
    ensures Table(i) == Span(i)
  {
  }

  lemma TableIsSpan2(i: bv8)
    requires 128 <= i < 192
    ensures Table(i) == Span(i)
  {
  }

  lemma TableIsSpan3(i: bv8)
    requires i >= 192
    ensures Table(i) == Span(i)
  {
  }

  lemma TableIsSpan(i: bv8)
    ensures Table(i) == Span(i)
  {
    hide Table, Span;
    if i < 64 { TableIsSpan0(i); } else if i < 128 { TableIsSpan1(i); }
    else if i < 192 { TableIsSpan2(i); } else { TableIsSpan3(i); }
  }

  lemma ShiftedPowers()
    ensures ShiftBits(0, 8) == 0
    ensures ShiftBits(1, 8) == 0x77073096 && ShiftBits(2, 8) == 0xEE0E612C
    ensures ShiftBits(4, 8) == 0x076DC419 && ShiftBits(8, 8) == 0x0EDB8832
    ensures ShiftBits(16, 8) == 0x1DB71064 && ShiftBits(32, 8) == 0x3B6E20C8
    ensures ShiftBits(64, 8) == 0x76DC4190 && ShiftBits(128, 8) == 0xEDB88320
  {
  }

  /** One bit of an index. */
  function Bit(i: bv8, m: bv8): bv32 {
    Widen(i & m)
  }

  lemma ShiftedPart(i: bv8, m: bv8, b: bv32)
    requires ShiftBits(Widen(m), 8) == b && ShiftBits(0, 8) == 0 && (i & m == 0 || i & m == m)
    ensures ShiftBits(Bit(i, m), 8) == Part(i, m, b)
  {
    hide ShiftBits;
  }

  lemma SingleBits(i: bv8)
    ensures (i & 1 == 0 || i & 1 == 1) && (i & 2 == 0 || i & 2 == 2) && (i & 4 == 0 || i & 4 == 4)
    ensures (i & 8 == 0 || i & 8 == 8) && (i & 16 == 0 || i & 16 == 16) && (i & 32 == 0 || i & 32 == 32)
    ensures (i & 64 == 0 || i & 64 == 64) && (i & 128 == 0 || i & 128 == 128)
  {
  }

  lemma BitsOfIndex(i: bv8)
    ensures Widen(i) == Xor32(Xor32(Xor32(Bit(i, 1), Bit(i, 2)), Xor32(Bit(i, 4), Bit(i, 8))),
                              Xor32(Xor32(Bit(i, 16), Bit(i, 32)), Xor32(Bit(i, 64), Bit(i, 128))))
  {
  }

  lemma ShiftedBits(i: bv8)
    ensures ShiftBits(Bit(i, 1), 8) == Part(i, 1, 0x77073096) && ShiftBits(Bit(i, 2), 8) == Part(i, 2, 0xEE0E612C)
    ensures ShiftBits(Bit(i, 4), 8) == Part(i, 4, 0x076DC419) && ShiftBits(Bit(i, 8), 8) == Part(i, 8, 0x0EDB8832)
    ensures ShiftBits(Bit(i, 16), 8) == Part(i, 16, 0x1DB71064) && ShiftBits(Bit(i, 32), 8) == Part(i, 32, 0x3B6E20C8)
    ensures ShiftBits(Bit(i, 64), 8) == Part(i, 64, 0x76DC4190) && ShiftBits(Bit(i, 128), 8) == Part(i, 128, 0xEDB88320)
  {
    hide ShiftBits, Part, Bit;
    ShiftedPowers();
    SingleBits(i);
    ShiftedPart(i, 1, ShiftBits(1, 8));
    ShiftedPart(i, 2, ShiftBits(2, 8));
    ShiftedPart(i, 4, ShiftBits(4, 8));
    ShiftedPart(i, 8, ShiftBits(8, 8));
    ShiftedPart(i, 16, ShiftBits(16, 8));
    ShiftedPart(i, 32, ShiftBits(32, 8));
    ShiftedPart(i, 64, ShiftBits(64, 8));
    ShiftedPart(i, 128, ShiftBits(128, 8));
  }

  /** All 256 entries are what eight single-bit steps compute. */
  lemma TableIsShift(i: bv8)
    ensures Table(i) == ShiftBits(Widen(i), 8)
  {
    hide ShiftBits, Table, Part, Bit, Xor32, Widen;
    TableIsSpan(i);
    BitsOfIndex(i);
    ShiftedBits(i);
    var a, b, c, d := Bit(i, 1), Bit(i, 2), Bit(i, 4), Bit(i, 8);
    var e, f, g, h := Bit(i, 16), Bit(i, 32), Bit(i, 64), Bit(i, 128);
    ShiftBitsLinear(a, b, 8);
    ShiftBitsLinear(c, d, 8);
    ShiftBitsLinear(e, f, 8);
    ShiftBitsLinear(g, h, 8);
    ShiftBitsLinear(Xor32(a, b), Xor32(c, d), 8);
    ShiftBitsLinear(Xor32(e, f), Xor32(g, h), 8);
    ShiftBitsLinear(Xor32(Xor32(a, b), Xor32(c, d)), Xor32(Xor32(e, f), Xor32(g, h)), 8);
  }

  lemma ClearLow(c: bv32)
    ensures var x := c & 0xFFFFFF00;
            && x & 1 == 0 && (x >> 1) & 1 == 0 && ((x >> 1) >> 1) & 1 == 0 && (((x >> 1) >> 1) >> 1) & 1 == 0
            && ((((x >> 1) >> 1) >> 1) >> 1) >> 4 == c >> 8
  {
  }

  lemma ClearLowAgain(y: bv32)
    ensures var x := y & 0xFFFFFFF0;
            && x & 1 == 0 && (x >> 1) & 1 == 0 && ((x >> 1) >> 1) & 1 == 0 && (((x >> 1) >> 1) >> 1) & 1 == 0
            && (((x >> 1) >> 1) >> 1) >> 1 == x >> 4
  {
  }

  lemma FourEvenSteps(x: bv32, n: nat)
    requires n >= 4
    requires x & 1 == 0 && (x >> 1) & 1 == 0 && ((x >> 1) >> 1) & 1 == 0 && (((x >> 1) >> 1) >> 1) & 1 == 0
    ensures ShiftBits(x, n) == ShiftBits((((x >> 1) >> 1) >> 1) >> 1, n - 4)
  {
    hide ShiftBits;
    ShiftBitsStep(x, n);
    ShiftBitsStep(x >> 1, n - 1);
    ShiftBitsStep((x >> 1) >> 1, n - 2);
    ShiftBitsStep(((x >> 1) >> 1) >> 1, n - 3);
  }

  lemma Middle(c: bv32)
    ensures var y := ((((c & 0xFFFFFF00) >> 1) >> 1) >> 1) >> 1; y == y & 0xFFFFFFF0
  {
  }

  function High(c: bv32): bv32 {
    c & 0xFFFFFF00
  }

  /** The upper three bytes only move down. */
  lemma ShiftBitsHigh(c: bv32)
    ensures ShiftBits(High(c), 8) == Down(c)
  {
    hide ShiftBits, ShiftBit;
    var x := c & 0xFFFFFF00;
    ClearLow(c);
    FourEvenSteps(x, 8);
    var y := (((x >> 1) >> 1) >> 1) >> 1;
    Middle(c);
    ClearLowAgain(y);
    FourEvenSteps(y, 4);
    NoShift(y >> 4);
  }

  lemma LowFits(c: bv32)
    ensures c & 0xFF <= 0xFF
  {
  }

  /** buffer[i] ^ (crc & 0xff) */
  function Index(c: bv32, b: bv8): bv8 {
    LowFits(c);
    b ^ ((c & 0xFF) as bv8)
  }

  function Low(c: bv32): bv32 {
    c & 0xFF
  }

  lemma WidenIndex(c: bv32, b: bv8)
    ensures Widen(Index(c, b)) == Xor32(Low(c), Widen(b))
  {
  }

  lemma XorAssociates(x: bv32, y: bv32, z: bv32)
    ensures Xor32(Xor32(x, y), z) == Xor32(x, Xor32(y, z))
  {
  }

  lemma HighAndLow(c: bv32)
    ensures Xor32(High(c), Low(c)) == c
  {
  }

  lemma SplitLow(c: bv32, b: bv8)
    ensures Xor32(c, Widen(b)) == Xor32(High(c), Widen(Index(c, b)))
  {
    hide Index, Widen, Xor32, High, Low;
    WidenIndex(c, b);
    HighAndLow(c);
    XorAssociates(High(c), Low(c), Widen(b));
  }

  /** One table step is eight single-bit steps. */
  lemma TableStep(c: bv32, b: bv8)
    ensures Xor32(Down(c), Table(Index(c, b))) == ShiftBits(Xor32(c, Widen(b)), 8)
  {
    hide ShiftBits, Table, Index, Xor32, Widen, High, Down;
    SplitLow(c, b);
    TableIsShift(Index(c, b));
    ShiftBitsHigh(c);
    ShiftBitsLinear(High(c), Widen(Index(c, b)), 8);
  }

  lemma {:induction false} RegisterStep(bs: seq<byte>, i: nat)
    requires i < |bs|
    ensures var c := Register(bs[..i]);
            Register(bs[..i + 1]) == Xor32(Down(c), Table(Index(c, ToBv8(bs[i]))))
  {
    hide ShiftBits, Table, Index, Xor32, Widen, Down, ToBv8;
    assert bs[..i + 1][..i] == bs[..i];
    TableStep(Register(bs[..i]), ToBv8(bs[i]));
  }

  /** stbiw__crc32 */
  method Compute(buffer: seq<byte>) returns (r: nat)
    ensures r == Crc(buffer)
  {
    hide Table, Index, Xor32, Down, Update, ToBv8;
    var crc: bv32 := 0xFFFFFFFF;   // ~0u
    assert Register(buffer[..0]) == crc;
    hide Register;
    for i := 0 to |buffer|
      invariant crc == Register(buffer[..i])
    {
      RegisterStep(buffer, i);
      crc := Xor32(Down(crc), Table(Index(crc, ToBv8(buffer[i]))));
    }
    assert buffer[..|buffer|] == buffer;
    r := Number(!crc);
  }

  // ----- where the register starts and what is complemented

  function LittleEndian32(n: nat): seq<byte> {
    [n % 256, n / 256 % 256, n / 65536 % 256, n / 16777216 % 256]
  }

  lemma Digits(a: nat, b: nat, c: nat, d: nat)
    requires a < 256 && b < 256 && c < 256 && d < 256
    ensures LittleEndian32(a + 256 * b + 65536 * c + 16777216 * d) == [a, b, c, d]
  {
    var n := a + 256 * b + 65536 * c + 16777216 * d;
    Digit(n, 256, b + 256 * c + 65536 * d, a);
    Digit(n, 65536, c + 256 * d, a + 256 * b);
    Digit(n, 16777216, d, a + 256 * b + 65536 * c);
    Digit(b + 256 * c + 65536 * d, 256, c + 256 * d, b);
    Digit(c + 256 * d, 256, d, c);
    Digit(d, 256, 0, d);
  }

  lemma Digit(n: nat, unit: nat, q: nat, r: nat)
    requires r < unit && n == q * unit + r
    ensures n / unit == q && n % unit == r
  {
    QuotientUnique(n, unit, q, r);
  }

  lemma ByteBack(b: bv8)
    ensures ToBv8(FromBv8(b)) == b
  {
  }

  /** The bytes of the value of a word are the bytes of the word. */
  lemma BytesOfNumber(w: bv32)
    ensures var bs := LittleEndian32(Number(w));
            |bs| == 4 && ToBv8(bs[0]) == LowBits(w) && ToBv8(bs[1]) == LowBits(Down(w)) &&
            ToBv8(bs[2]) == LowBits(Down(Down(w))) && ToBv8(bs[3]) == LowBits(Down(Down(Down(w))))
  {
    hide LowBits, Down, ToBv8, FromBv8;
    ByteBack(LowBits(w));
    ByteBack(LowBits(Down(w)));
    ByteBack(LowBits(Down(Down(w))));
    ByteBack(LowBits(Down(Down(Down(w)))));
    Digits(FromBv8(LowBits(w)), FromBv8(LowBits(Down(w))), FromBv8(LowBits(Down(Down(w)))),
           FromBv8(LowBits(Down(Down(Down(w))))));
    hide LittleEndian32;
  }

  lemma LowByte(w: bv32)
    ensures Widen(LowBits(w)) == Low(w)
  {
  }

  lemma AllDown(w: bv32)
    ensures Down(Down(Down(Down(w)))) == 0
  {
  }

  lemma XorRegroups(c: bv32, low: bv32, high: bv32)
    ensures Xor32(Xor32(c, low), high) == Xor32(c, Xor32(high, low))
  {
  }

  /** A byte of `w` that is fed to the register leaves what was different between the two shifted by eight. */
  lemma FeedByte(c: bv32, w: bv32, b: byte)
    requires Widen(ToBv8(b)) == Low(w)
    ensures Xor32(Update(c, b), Down(w)) == ShiftBits(Xor32(c, w), 8)
  {
    hide ShiftBits, Xor32, Widen, ToBv8, Low, High, Down;
    ShiftBitsHigh(w);
    ShiftBitsLinear(Xor32(c, Low(w)), High(w), 8);
    XorRegroups(c, Low(w), High(w));
    HighAndLow(w);
  }

  lemma AllOnesShifted()
    ensures ShiftBits(0xFFFFFFFF, 8) == 0x2DFD1072 && ShiftBits(0x2DFD1072, 8) == 0xBE26ED00
    ensures ShiftBits(0xBE26ED00, 8) == 0x00BE26ED && ShiftBits(0x00BE26ED, 8) == 0xDEBB20E3
  {
  }

  lemma Complement(c: bv32)
    ensures Xor32(c, !c) == 0xFFFFFFFF && Xor32(c, 0) == c
  {
  }

  lemma RegisterNext(bs: seq<byte>, b: byte)
    ensures Register(bs + [b]) == Update(Register(bs), b)
  {
    hide Update;
    assert (bs + [b])[..|bs|] == bs;
  }

  /** Fed with its own complement, low byte first, any register ends with the same value. */
  lemma FeedComplement(c: bv32, b: seq<byte>)
    requires |b| == 4 && ToBv8(b[0]) == LowBits(!c) && ToBv8(b[1]) == LowBits(Down(!c))
    requires ToBv8(b[2]) == LowBits(Down(Down(!c))) && ToBv8(b[3]) == LowBits(Down(Down(Down(!c))))
    ensures Update(Update(Update(Update(c, b[0]), b[1]), b[2]), b[3]) == 0xDEBB20E3
  {
    hide Update, ShiftBits, Xor32, Widen, ToBv8, Low, LowBits, Down;
    var w := !c;
    var w1, w2, w3 := Down(w), Down(Down(w)), Down(Down(Down(w)));
    LowByte(w);
    LowByte(w1);
    LowByte(w2);
    LowByte(w3);
    AllDown(w);
    Complement(c);
    AllOnesShifted();
    var c1, c2, c3 := Update(c, b[0]), Update(Update(c, b[0]), b[1]), Update(Update(Update(c, b[0]), b[1]), b[2]);
    FeedByte(c, w, b[0]);
    FeedByte(c1, w1, b[1]);
    FeedByte(c2, w2, b[2]);
    FeedByte(c3, w3, b[3]);
    Complement(Update(c3, b[3]));
  }

  lemma ResidueNumber()
    ensures Number(!(0xDEBB20E3 as bv32)) == 0x2144DF1C && Number(!(0xFFFFFFFF as bv32)) == 0
  {
  }

  /** The check value of nothing is zero. */
  lemma CrcOfNothing()
    ensures Crc([]) == 0
  {
    ResidueNumber();
    hide Number;
  }

  /** Data followed by its check value, low byte first, always has the same check value. */
  lemma Residue(bs: seq<byte>)
    ensures Crc(bs + LittleEndian32(Crc(bs))) == 0x2144DF1C
  {
    var c, b := Register(bs), LittleEndian32(Crc(bs));
    BytesOfNumber(!c);
    ResidueNumber();
    hide Register, Update, Number, LowBits, Down, ToBv8, LittleEndian32;
    FeedComplement(c, b);
    RegisterNext(bs, b[0]);
    RegisterNext(bs + [b[0]], b[1]);
    RegisterNext(bs + [b[0]] + [b[1]], b[2]);
    RegisterNext(bs + [b[0]] + [b[1]] + [b[2]], b[3]);
    assert bs + b == bs + [b[0]] + [b[1]] + [b[2]] + [b[3]];
  }
}
