/**
 * The JPEG writer's Huffman tables: for each, the code table it encodes with and the code-length counts and
 * symbol values it writes into the DHT segment. A decoder sees only the latter.
 */
module JpegTables {
  import opened Bits

  /** A code word, or nothing (length 0) for a symbol without one. */
  datatype Code = Code(bits: nat, len: nat)

  datatype Table = LuminanceDC | ChrominanceDC | LuminanceAC | ChrominanceAC

  // ----- YDC_HT

  /** YDC_HT */
  function YdcCode(s: nat): Code {
    match s
    case 0 => Code(0, 2) case 1 => Code(2, 3) case 2 => Code(3, 3) case 3 => Code(4, 3) case 4 => Code(5, 3) case 5 => Code(6, 3)
    case 6 => Code(14, 4) case 7 => Code(30, 5) case 8 => Code(62, 6) case 9 => Code(126, 7) case 10 => Code(254, 8) case 11 => Code(510, 9)
    case _ => Code(0, 0)
  }

  /** std_dc_luminance_nrcodes */
  function YdcCount(len: nat): nat {
    match len
    case 1 => 0 case 2 => 1 case 3 => 5 case 4 => 1 case 5 => 1 case 6 => 1 case 7 => 1 case 8 => 1
    case 9 => 1 case 10 => 0 case 11 => 0 case 12 => 0 case 13 => 0 case 14 => 0 case 15 => 0 case 16 => 0
    case _ => 0
  }

  /** std_dc_luminance_values */
  function YdcValue(i: nat): nat {
    match i
    case 0 => 0 case 1 => 1 case 2 => 2 case 3 => 3 case 4 => 4 case 5 => 5
    case 6 => 6 case 7 => 7 case 8 => 8 case 9 => 9 case 10 => 10 case 11 => 11
    case _ => 256
  }

  /** The smallest code of each length. */
  function YdcFirst(len: nat): nat {
    match len
    case 1 => 0 case 2 => 0 case 3 => 2 case 4 => 14 case 5 => 30 case 6 => 62 case 7 => 126 case 8 => 254
    case 9 => 510 case 10 => 1022 case 11 => 2044 case 12 => 4088 case 13 => 8176 case 14 => 16352 case 15 => 32704 case 16 => 65408
    case _ => 0
  }

  /** Where the values of each length start. */
  function YdcStart(len: nat): nat {
    match len
    case 1 => 0 case 2 => 0 case 3 => 1 case 4 => 6 case 5 => 7 case 6 => 8 case 7 => 9 case 8 => 10
    case 9 => 11 case 10 => 12 case 11 => 12 case 12 => 12 case 13 => 12 case 14 => 12 case 15 => 12 case 16 => 12
    case _ => 0
  }

  // ----- UVDC_HT

  /** UVDC_HT */
  function UvdcCode(s: nat): Code {
    match s
    case 0 => Code(0, 2) case 1 => Code(1, 2) case 2 => Code(2, 2) case 3 => Code(6, 3) case 4 => Code(14, 4) case 5 => Code(30, 5)
    case 6 => Code(62, 6) case 7 => Code(126, 7) case 8 => Code(254, 8) case 9 => Code(510, 9) case 10 => Code(1022, 10) case 11 => Code(2046, 11)
    case _ => Code(0, 0)
  }

  /** std_dc_chrominance_nrcodes */
  function UvdcCount(len: nat): nat {
    match len
    case 1 => 0 case 2 => 3 case 3 => 1 case 4 => 1 case 5 => 1 case 6 => 1 case 7 => 1 case 8 => 1
    case 9 => 1 case 10 => 1 case 11 => 1 case 12 => 0 case 13 => 0 case 14 => 0 case 15 => 0 case 16 => 0
    case _ => 0
  }

  /** std_dc_chrominance_values */
  function UvdcValue(i: nat): nat {
    match i
    case 0 => 0 case 1 => 1 case 2 => 2 case 3 => 3 case 4 => 4 case 5 => 5
    case 6 => 6 case 7 => 7 case 8 => 8 case 9 => 9 case 10 => 10 case 11 => 11
    case _ => 256
  }

  /** The smallest code of each length. */
  function UvdcFirst(len: nat): nat {
    match len
    case 1 => 0 case 2 => 0 case 3 => 6 case 4 => 14 case 5 => 30 case 6 => 62 case 7 => 126 case 8 => 254
    case 9 => 510 case 10 => 1022 case 11 => 2046 case 12 => 4094 case 13 => 8188 case 14 => 16376 case 15 => 32752 case 16 => 65504
    case _ => 0
  }

  /** Where the values of each length start. */
  function UvdcStart(len: nat): nat {
    match len
    case 1 => 0 case 2 => 0 case 3 => 3 case 4 => 4 case 5 => 5 case 6 => 6 case 7 => 7 case 8 => 8
    case 9 => 9 case 10 => 10 case 11 => 11 case 12 => 12 case 13 => 12 case 14 => 12 case 15 => 12 case 16 => 12
    case _ => 0
  }

  // ----- YAC_HT, one row per zero run

  function YacRow0(k: nat): Code {
    match k
    case 0 => Code(10, 4) case 1 => Code(0, 2) case 2 => Code(1, 2) case 3 => Code(4, 3) case 4 => Code(11, 4) case 5 => Code(26, 5)
    case 6 => Code(120, 7) case 7 => Code(248, 8) case 8 => Code(1014, 10) case 9 => Code(65410, 16) case 10 => Code(65411, 16) case _ => Code(0, 0)
  }

  function YacRow1(k: nat): Code {
    match k
    case 1 => Code(12, 4) case 2 => Code(27, 5) case 3 => Code(121, 7) case 4 => Code(502, 9) case 5 => Code(2038, 11) case 6 => Code(65412, 16)
    case 7 => Code(65413, 16) case 8 => Code(65414, 16) case 9 => Code(65415, 16) case 10 => Code(65416, 16) case _ => Code(0, 0)
  }

  function YacRow2(k: nat): Code {
    match k
    case 1 => Code(28, 5) case 2 => Code(249, 8) case 3 => Code(1015, 10) case 4 => Code(4084, 12) case 5 => Code(65417, 16) case 6 => Code(65418, 16)
    case 7 => Code(65419, 16) case 8 => Code(65420, 16) case 9 => Code(65421, 16) case 10 => Code(65422, 16) case _ => Code(0, 0)
  }

  function YacRow3(k: nat): Code {
    match k
    case 1 => Code(58, 6) case 2 => Code(503, 9) case 3 => Code(4085, 12) case 4 => Code(65423, 16) case 5 => Code(65424, 16) case 6 => Code(65425, 16)
    case 7 => Code(65426, 16) case 8 => Code(65427, 16) case 9 => Code(65428, 16) case 10 => Code(65429, 16) case _ => Code(0, 0)
  }

  function YacRow4(k: nat): Code {
    match k
    case 1 => Code(59, 6) case 2 => Code(1016, 10) case 3 => Code(65430, 16) case 4 => Code(65431, 16) case 5 => Code(65432, 16) case 6 => Code(65433, 16)
    case 7 => Code(65434, 16) case 8 => Code(65435, 16) case 9 => Code(65436, 16) case 10 => Code(65437, 16) case _ => Code(0, 0)
  }

  function YacRow5(k: nat): Code {
    match k
    case 1 => Code(122, 7) case 2 => Code(2039, 11) case 3 => Code(65438, 16) case 4 => Code(65439, 16) case 5 => Code(65440, 16) case 6 => Code(65441, 16)
    case 7 => Code(65442, 16) case 8 => Code(65443, 16) case 9 => Code(65444, 16) case 10 => Code(65445, 16) case _ => Code(0, 0)
  }

  function YacRow6(k: nat): Code {
    match k
    case 1 => Code(123, 7) case 2 => Code(4086, 12) case 3 => Code(65446, 16) case 4 => Code(65447, 16) case 5 => Code(65448, 16) case 6 => Code(65449, 16)
    case 7 => Code(65450, 16) case 8 => Code(65451, 16) case 9 => Code(65452, 16) case 10 => Code(65453, 16) case _ => Code(0, 0)
  }

  function YacRow7(k: nat): Code {
    match k
    case 1 => Code(250, 8) case 2 => Code(4087, 12) case 3 => Code(65454, 16) case 4 => Code(65455, 16) case 5 => Code(65456, 16) case 6 => Code(65457, 16)
    case 7 => Code(65458, 16) case 8 => Code(65459, 16) case 9 => Code(65460, 16) case 10 => Code(65461, 16) case _ => Code(0, 0)
  }

  function YacRow8(k: nat): Code {
    match k
    case 1 => Code(504, 9) case 2 => Code(32704, 15) case 3 => Code(65462, 16) case 4 => Code(65463, 16) case 5 => Code(65464, 16) case 6 => Code(65465, 16)
    case 7 => Code(65466, 16) case 8 => Code(65467, 16) case 9 => Code(65468, 16) case 10 => Code(65469, 16) case _ => Code(0, 0)
  }

  function YacRow9(k: nat): Code {
    match k
    case 1 => Code(505, 9) case 2 => Code(65470, 16) case 3 => Code(65471, 16) case 4 => Code(65472, 16) case 5 => Code(65473, 16) case 6 => Code(65474, 16)
    case 7 => Code(65475, 16) case 8 => Code(65476, 16) case 9 => Code(65477, 16) case 10 => Code(65478, 16) case _ => Code(0, 0)
  }

  function YacRowA(k: nat): Code {
    match k
    case 1 => Code(506, 9) case 2 => Code(65479, 16) case 3 => Code(65480, 16) case 4 => Code(65481, 16) case 5 => Code(65482, 16) case 6 => Code(65483, 16)
    case 7 => Code(65484, 16) case 8 => Code(65485, 16) case 9 => Code(65486, 16) case 10 => Code(65487, 16) case _ => Code(0, 0)
  }

  function YacRowB(k: nat): Code {
    match k
    case 1 => Code(1017, 10) case 2 => Code(65488, 16) case 3 => Code(65489, 16) case 4 => Code(65490, 16) case 5 => Code(65491, 16) case 6 => Code(65492, 16)
    case 7 => Code(65493, 16) case 8 => Code(65494, 16) case 9 => Code(65495, 16) case 10 => Code(65496, 16) case _ => Code(0, 0)
  }

  function YacRowC(k: nat): Code {
    match k
    case 1 => Code(1018, 10) case 2 => Code(65497, 16) case 3 => Code(65498, 16) case 4 => Code(65499, 16) case 5 => Code(65500, 16) case 6 => Code(65501, 16)
    case 7 => Code(65502, 16) case 8 => Code(65503, 16) case 9 => Code(65504, 16) case 10 => Code(65505, 16) case _ => Code(0, 0)
  }

  function YacRowD(k: nat): Code {
    match k
    case 1 => Code(2040, 11) case 2 => Code(65506, 16) case 3 => Code(65507, 16) case 4 => Code(65508, 16) case 5 => Code(65509, 16) case 6 => Code(65510, 16)
    case 7 => Code(65511, 16) case 8 => Code(65512, 16) case 9 => Code(65513, 16) case 10 => Code(65514, 16) case _ => Code(0, 0)
  }

  function YacRowE(k: nat): Code {
    match k
    case 1 => Code(65515, 16) case 2 => Code(65516, 16) case 3 => Code(65517, 16) case 4 => Code(65518, 16) case 5 => Code(65519, 16) case 6 => Code(65520, 16)
    case 7 => Code(65521, 16) case 8 => Code(65522, 16) case 9 => Code(65523, 16) case 10 => Code(65524, 16) case _ => Code(0, 0)
  }

  function YacRowF(k: nat): Code {
    match k
    case 0 => Code(2041, 11) case 1 => Code(65525, 16) case 2 => Code(65526, 16) case 3 => Code(65527, 16) case 4 => Code(65528, 16) case 5 => Code(65529, 16)
    case 6 => Code(65530, 16) case 7 => Code(65531, 16) case 8 => Code(65532, 16) case 9 => Code(65533, 16) case 10 => Code(65534, 16) case _ => Code(0, 0)
  }

  function YacCode(s: nat): Code {
    var k := s % 16;
    match s / 16
    case 0 => YacRow0(k) case 1 => YacRow1(k) case 2 => YacRow2(k) case 3 => YacRow3(k) case 4 => YacRow4(k) case 5 => YacRow5(k)
    case 6 => YacRow6(k) case 7 => YacRow7(k) case 8 => YacRow8(k) case 9 => YacRow9(k) case 10 => YacRowA(k) case 11 => YacRowB(k)
    case 12 => YacRowC(k) case 13 => YacRowD(k) case 14 => YacRowE(k) case 15 => YacRowF(k) case _ => Code(0, 0)
  }

  /** std_ac_luminance_nrcodes */
  function YacCount(len: nat): nat {
    match len
    case 1 => 0 case 2 => 2 case 3 => 1 case 4 => 3 case 5 => 3 case 6 => 2 case 7 => 4 case 8 => 3
    case 9 => 5 case 10 => 5 case 11 => 4 case 12 => 4 case 13 => 0 case 14 => 0 case 15 => 1 case 16 => 125
    case _ => 0
  }

  function YacValues0(j: nat): nat {
    match j
    case 0 => 0x01 case 1 => 0x02 case 2 => 0x03 case 3 => 0x00 case 4 => 0x04 case 5 => 0x11 case 6 => 0x05 case 7 => 0x12
    case 8 => 0x21 case 9 => 0x31 case 10 => 0x41 case 11 => 0x06 case 12 => 0x13 case 13 => 0x51 case 14 => 0x61 case 15 => 0x07
    case 16 => 0x22 case 17 => 0x71 case 18 => 0x14 case 19 => 0x32 case 20 => 0x81 case 21 => 0x91 case 22 => 0xa1 case 23 => 0x08
    case _ => 256
  }

  function YacValues1(j: nat): nat {
    match j
    case 0 => 0x23 case 1 => 0x42 case 2 => 0xb1 case 3 => 0xc1 case 4 => 0x15 case 5 => 0x52 case 6 => 0xd1 case 7 => 0xf0
    case 8 => 0x24 case 9 => 0x33 case 10 => 0x62 case 11 => 0x72 case 12 => 0x82 case 13 => 0x09 case 14 => 0x0a case 15 => 0x16
    case 16 => 0x17 case 17 => 0x18 case 18 => 0x19 case 19 => 0x1a case 20 => 0x25 case 21 => 0x26 case 22 => 0x27 case 23 => 0x28
    case _ => 256
  }

  function YacValues2(j: nat): nat {
    match j
    case 0 => 0x29 case 1 => 0x2a case 2 => 0x34 case 3 => 0x35 case 4 => 0x36 case 5 => 0x37 case 6 => 0x38 case 7 => 0x39
    case 8 => 0x3a case 9 => 0x43 case 10 => 0x44 case 11 => 0x45 case 12 => 0x46 case 13 => 0x47 case 14 => 0x48 case 15 => 0x49
    case 16 => 0x4a case 17 => 0x53 case 18 => 0x54 case 19 => 0x55 case 20 => 0x56 case 21 => 0x57 case 22 => 0x58 case 23 => 0x59
    case _ => 256
  }

  function YacValues3(j: nat): nat {
    match j
    case 0 => 0x5a case 1 => 0x63 case 2 => 0x64 case 3 => 0x65 case 4 => 0x66 case 5 => 0x67 case 6 => 0x68 case 7 => 0x69
    case 8 => 0x6a case 9 => 0x73 case 10 => 0x74 case 11 => 0x75 case 12 => 0x76 case 13 => 0x77 case 14 => 0x78 case 15 => 0x79
    case 16 => 0x7a case 17 => 0x83 case 18 => 0x84 case 19 => 0x85 case 20 => 0x86 case 21 => 0x87 case 22 => 0x88 case 23 => 0x89
    case _ => 256
  }

  function YacValues4(j: nat): nat {
    match j
    case 0 => 0x8a case 1 => 0x92 case 2 => 0x93 case 3 => 0x94 case 4 => 0x95 case 5 => 0x96 case 6 => 0x97 case 7 => 0x98
    case 8 => 0x99 case 9 => 0x9a case 10 => 0xa2 case 11 => 0xa3 case 12 => 0xa4 case 13 => 0xa5 case 14 => 0xa6 case 15 => 0xa7
    case 16 => 0xa8 case 17 => 0xa9 case 18 => 0xaa case 19 => 0xb2 case 20 => 0xb3 case 21 => 0xb4 case 22 => 0xb5 case 23 => 0xb6
    case _ => 256
  }

  function YacValues5(j: nat): nat {
    match j
    case 0 => 0xb7 case 1 => 0xb8 case 2 => 0xb9 case 3 => 0xba case 4 => 0xc2 case 5 => 0xc3 case 6 => 0xc4 case 7 => 0xc5
    case 8 => 0xc6 case 9 => 0xc7 case 10 => 0xc8 case 11 => 0xc9 case 12 => 0xca case 13 => 0xd2 case 14 => 0xd3 case 15 => 0xd4
    case 16 => 0xd5 case 17 => 0xd6 case 18 => 0xd7 case 19 => 0xd8 case 20 => 0xd9 case 21 => 0xda case 22 => 0xe1 case 23 => 0xe2
    case _ => 256
  }

  function YacValues6(j: nat): nat {
    match j
    case 0 => 0xe3 case 1 => 0xe4 case 2 => 0xe5 case 3 => 0xe6 case 4 => 0xe7 case 5 => 0xe8 case 6 => 0xe9 case 7 => 0xea
    case 8 => 0xf1 case 9 => 0xf2 case 10 => 0xf3 case 11 => 0xf4 case 12 => 0xf5 case 13 => 0xf6 case 14 => 0xf7 case 15 => 0xf8
    case 16 => 0xf9 case 17 => 0xfa case _ => 256
  }

  /** std_ac_luminance_values, in lines of 24 */
  function YacValue(i: nat): nat {
    var j := i % 24;
    match i / 24
    case 0 => YacValues0(j) case 1 => YacValues1(j) case 2 => YacValues2(j) case 3 => YacValues3(j)
    case 4 => YacValues4(j) case 5 => YacValues5(j) case 6 => YacValues6(j) case _ => 256
  }

  /** The smallest code of each length. */
  function YacFirst(len: nat): nat {
    match len
    case 1 => 0 case 2 => 0 case 3 => 4 case 4 => 10 case 5 => 26 case 6 => 58 case 7 => 120 case 8 => 248
    case 9 => 502 case 10 => 1014 case 11 => 2038 case 12 => 4084 case 13 => 8176 case 14 => 16352 case 15 => 32704 case 16 => 65410
    case _ => 0
  }

  /** Where the values of each length start. */
  function YacStart(len: nat): nat {
    match len
    case 1 => 0 case 2 => 0 case 3 => 2 case 4 => 3 case 5 => 6 case 6 => 9 case 7 => 11 case 8 => 15
    case 9 => 18 case 10 => 23 case 11 => 28 case 12 => 32 case 13 => 36 case 14 => 36 case 15 => 36 case 16 => 37
    case _ => 0
  }

  // ----- UVAC_HT, one row per zero run

  function UvacRow0(k: nat): Code {
    match k
    case 0 => Code(0, 2) case 1 => Code(1, 2) case 2 => Code(4, 3) case 3 => Code(10, 4) case 4 => Code(24, 5) case 5 => Code(25, 5)
    case 6 => Code(56, 6) case 7 => Code(120, 7) case 8 => Code(500, 9) case 9 => Code(1014, 10) case 10 => Code(4084, 12) case _ => Code(0, 0)
  }

  function UvacRow1(k: nat): Code {
    match k
    case 1 => Code(11, 4) case 2 => Code(57, 6) case 3 => Code(246, 8) case 4 => Code(501, 9) case 5 => Code(2038, 11) case 6 => Code(4085, 12)
    case 7 => Code(65416, 16) case 8 => Code(65417, 16) case 9 => Code(65418, 16) case 10 => Code(65419, 16) case _ => Code(0, 0)
  }

  function UvacRow2(k: nat): Code {
    match k
    case 1 => Code(26, 5) case 2 => Code(247, 8) case 3 => Code(1015, 10) case 4 => Code(4086, 12) case 5 => Code(32706, 15) case 6 => Code(65420, 16)
    case 7 => Code(65421, 16) case 8 => Code(65422, 16) case 9 => Code(65423, 16) case 10 => Code(65424, 16) case _ => Code(0, 0)
  }

  function UvacRow3(k: nat): Code {
    match k
    case 1 => Code(27, 5) case 2 => Code(248, 8) case 3 => Code(1016, 10) case 4 => Code(4087, 12) case 5 => Code(65425, 16) case 6 => Code(65426, 16)
    case 7 => Code(65427, 16) case 8 => Code(65428, 16) case 9 => Code(65429, 16) case 10 => Code(65430, 16) case _ => Code(0, 0)
  }

  function UvacRow4(k: nat): Code {
    match k
    case 1 => Code(58, 6) case 2 => Code(502, 9) case 3 => Code(65431, 16) case 4 => Code(65432, 16) case 5 => Code(65433, 16) case 6 => Code(65434, 16)
    case 7 => Code(65435, 16) case 8 => Code(65436, 16) case 9 => Code(65437, 16) case 10 => Code(65438, 16) case _ => Code(0, 0)
  }

  function UvacRow5(k: nat): Code {
    match k
    case 1 => Code(59, 6) case 2 => Code(1017, 10) case 3 => Code(65439, 16) case 4 => Code(65440, 16) case 5 => Code(65441, 16) case 6 => Code(65442, 16)
    case 7 => Code(65443, 16) case 8 => Code(65444, 16) case 9 => Code(65445, 16) case 10 => Code(65446, 16) case _ => Code(0, 0)
  }

  function UvacRow6(k: nat): Code {
    match k
    case 1 => Code(121, 7) case 2 => Code(2039, 11) case 3 => Code(65447, 16) case 4 => Code(65448, 16) case 5 => Code(65449, 16) case 6 => Code(65450, 16)
    case 7 => Code(65451, 16) case 8 => Code(65452, 16) case 9 => Code(65453, 16) case 10 => Code(65454, 16) case _ => Code(0, 0)
  }

  function UvacRow7(k: nat): Code {
    match k
    case 1 => Code(122, 7) case 2 => Code(2040, 11) case 3 => Code(65455, 16) case 4 => Code(65456, 16) case 5 => Code(65457, 16) case 6 => Code(65458, 16)
    case 7 => Code(65459, 16) case 8 => Code(65460, 16) case 9 => Code(65461, 16) case 10 => Code(65462, 16) case _ => Code(0, 0)
  }

  function UvacRow8(k: nat): Code {
    match k
    case 1 => Code(249, 8) case 2 => Code(65463, 16) case 3 => Code(65464, 16) case 4 => Code(65465, 16) case 5 => Code(65466, 16) case 6 => Code(65467, 16)
    case 7 => Code(65468, 16) case 8 => Code(65469, 16) case 9 => Code(65470, 16) case 10 => Code(65471, 16) case _ => Code(0, 0)
  }

  function UvacRow9(k: nat): Code {
    match k
    case 1 => Code(503, 9) case 2 => Code(65472, 16) case 3 => Code(65473, 16) case 4 => Code(65474, 16) case 5 => Code(65475, 16) case 6 => Code(65476, 16)
    case 7 => Code(65477, 16) case 8 => Code(65478, 16) case 9 => Code(65479, 16) case 10 => Code(65480, 16) case _ => Code(0, 0)
  }

  function UvacRowA(k: nat): Code {
    match k
    case 1 => Code(504, 9) case 2 => Code(65481, 16) case 3 => Code(65482, 16) case 4 => Code(65483, 16) case 5 => Code(65484, 16) case 6 => Code(65485, 16)
    case 7 => Code(65486, 16) case 8 => Code(65487, 16) case 9 => Code(65488, 16) case 10 => Code(65489, 16) case _ => Code(0, 0)
  }

  function UvacRowB(k: nat): Code {
    match k
    case 1 => Code(505, 9) case 2 => Code(65490, 16) case 3 => Code(65491, 16) case 4 => Code(65492, 16) case 5 => Code(65493, 16) case 6 => Code(65494, 16)
    case 7 => Code(65495, 16) case 8 => Code(65496, 16) case 9 => Code(65497, 16) case 10 => Code(65498, 16) case _ => Code(0, 0)
  }

  function UvacRowC(k: nat): Code {
    match k
    case 1 => Code(506, 9) case 2 => Code(65499, 16) case 3 => Code(65500, 16) case 4 => Code(65501, 16) case 5 => Code(65502, 16) case 6 => Code(65503, 16)
    case 7 => Code(65504, 16) case 8 => Code(65505, 16) case 9 => Code(65506, 16) case 10 => Code(65507, 16) case _ => Code(0, 0)
  }

  function UvacRowD(k: nat): Code {
    match k
    case 1 => Code(2041, 11) case 2 => Code(65508, 16) case 3 => Code(65509, 16) case 4 => Code(65510, 16) case 5 => Code(65511, 16) case 6 => Code(65512, 16)
    case 7 => Code(65513, 16) case 8 => Code(65514, 16) case 9 => Code(65515, 16) case 10 => Code(65516, 16) case _ => Code(0, 0)
  }

  function UvacRowE(k: nat): Code {
    match k
    case 1 => Code(16352, 14) case 2 => Code(65517, 16) case 3 => Code(65518, 16) case 4 => Code(65519, 16) case 5 => Code(65520, 16) case 6 => Code(65521, 16)
    case 7 => Code(65522, 16) case 8 => Code(65523, 16) case 9 => Code(65524, 16) case 10 => Code(65525, 16) case _ => Code(0, 0)
  }

  function UvacRowF(k: nat): Code {
    match k
    case 0 => Code(1018, 10) case 1 => Code(32707, 15) case 2 => Code(65526, 16) case 3 => Code(65527, 16) case 4 => Code(65528, 16) case 5 => Code(65529, 16)
    case 6 => Code(65530, 16) case 7 => Code(65531, 16) case 8 => Code(65532, 16) case 9 => Code(65533, 16) case 10 => Code(65534, 16) case _ => Code(0, 0)
  }

  function UvacCode(s: nat): Code {
    var k := s % 16;
    match s / 16
    case 0 => UvacRow0(k) case 1 => UvacRow1(k) case 2 => UvacRow2(k) case 3 => UvacRow3(k) case 4 => UvacRow4(k) case 5 => UvacRow5(k)
    case 6 => UvacRow6(k) case 7 => UvacRow7(k) case 8 => UvacRow8(k) case 9 => UvacRow9(k) case 10 => UvacRowA(k) case 11 => UvacRowB(k)
    case 12 => UvacRowC(k) case 13 => UvacRowD(k) case 14 => UvacRowE(k) case 15 => UvacRowF(k) case _ => Code(0, 0)
  }

  /** std_ac_chrominance_nrcodes */
  function UvacCount(len: nat): nat {
    match len
    case 1 => 0 case 2 => 2 case 3 => 1 case 4 => 2 case 5 => 4 case 6 => 4 case 7 => 3 case 8 => 4
    case 9 => 7 case 10 => 5 case 11 => 4 case 12 => 4 case 13 => 0 case 14 => 1 case 15 => 2 case 16 => 119
    case _ => 0
  }

  function UvacValues0(j: nat): nat {
    match j
    case 0 => 0x00 case 1 => 0x01 case 2 => 0x02 case 3 => 0x03 case 4 => 0x11 case 5 => 0x04 case 6 => 0x05 case 7 => 0x21
    case 8 => 0x31 case 9 => 0x06 case 10 => 0x12 case 11 => 0x41 case 12 => 0x51 case 13 => 0x07 case 14 => 0x61 case 15 => 0x71
    case 16 => 0x13 case 17 => 0x22 case 18 => 0x32 case 19 => 0x81 case 20 => 0x08 case 21 => 0x14 case 22 => 0x42 case 23 => 0x91
    case _ => 256
  }

  function UvacValues1(j: nat): nat {
    match j
    case 0 => 0xa1 case 1 => 0xb1 case 2 => 0xc1 case 3 => 0x09 case 4 => 0x23 case 5 => 0x33 case 6 => 0x52 case 7 => 0xf0
    case 8 => 0x15 case 9 => 0x62 case 10 => 0x72 case 11 => 0xd1 case 12 => 0x0a case 13 => 0x16 case 14 => 0x24 case 15 => 0x34
    case 16 => 0xe1 case 17 => 0x25 case 18 => 0xf1 case 19 => 0x17 case 20 => 0x18 case 21 => 0x19 case 22 => 0x1a case 23 => 0x26
    case _ => 256
  }

  function UvacValues2(j: nat): nat {
    match j
    case 0 => 0x27 case 1 => 0x28 case 2 => 0x29 case 3 => 0x2a case 4 => 0x35 case 5 => 0x36 case 6 => 0x37 case 7 => 0x38
    case 8 => 0x39 case 9 => 0x3a case 10 => 0x43 case 11 => 0x44 case 12 => 0x45 case 13 => 0x46 case 14 => 0x47 case 15 => 0x48
    case 16 => 0x49 case 17 => 0x4a case 18 => 0x53 case 19 => 0x54 case 20 => 0x55 case 21 => 0x56 case 22 => 0x57 case 23 => 0x58
    case _ => 256
  }

  function UvacValues3(j: nat): nat {
    match j
    case 0 => 0x59 case 1 => 0x5a case 2 => 0x63 case 3 => 0x64 case 4 => 0x65 case 5 => 0x66 case 6 => 0x67 case 7 => 0x68
    case 8 => 0x69 case 9 => 0x6a case 10 => 0x73 case 11 => 0x74 case 12 => 0x75 case 13 => 0x76 case 14 => 0x77 case 15 => 0x78
    case 16 => 0x79 case 17 => 0x7a case 18 => 0x82 case 19 => 0x83 case 20 => 0x84 case 21 => 0x85 case 22 => 0x86 case 23 => 0x87
    case _ => 256
  }

  function UvacValues4(j: nat): nat {
    match j
    case 0 => 0x88 case 1 => 0x89 case 2 => 0x8a case 3 => 0x92 case 4 => 0x93 case 5 => 0x94 case 6 => 0x95 case 7 => 0x96
    case 8 => 0x97 case 9 => 0x98 case 10 => 0x99 case 11 => 0x9a case 12 => 0xa2 case 13 => 0xa3 case 14 => 0xa4 case 15 => 0xa5
    case 16 => 0xa6 case 17 => 0xa7 case 18 => 0xa8 case 19 => 0xa9 case 20 => 0xaa case 21 => 0xb2 case 22 => 0xb3 case 23 => 0xb4
    case _ => 256
  }

  function UvacValues5(j: nat): nat {
    match j
    case 0 => 0xb5 case 1 => 0xb6 case 2 => 0xb7 case 3 => 0xb8 case 4 => 0xb9 case 5 => 0xba case 6 => 0xc2 case 7 => 0xc3
    case 8 => 0xc4 case 9 => 0xc5 case 10 => 0xc6 case 11 => 0xc7 case 12 => 0xc8 case 13 => 0xc9 case 14 => 0xca case 15 => 0xd2
    case 16 => 0xd3 case 17 => 0xd4 case 18 => 0xd5 case 19 => 0xd6 case 20 => 0xd7 case 21 => 0xd8 case 22 => 0xd9 case 23 => 0xda
    case _ => 256
  }

  function UvacValues6(j: nat): nat {
    match j
    case 0 => 0xe2 case 1 => 0xe3 case 2 => 0xe4 case 3 => 0xe5 case 4 => 0xe6 case 5 => 0xe7 case 6 => 0xe8 case 7 => 0xe9
    case 8 => 0xea case 9 => 0xf2 case 10 => 0xf3 case 11 => 0xf4 case 12 => 0xf5 case 13 => 0xf6 case 14 => 0xf7 case 15 => 0xf8
    case 16 => 0xf9 case 17 => 0xfa case _ => 256
  }

  /** std_ac_chrominance_values, in lines of 24 */
  function UvacValue(i: nat): nat {
    var j := i % 24;
    match i / 24
    case 0 => UvacValues0(j) case 1 => UvacValues1(j) case 2 => UvacValues2(j) case 3 => UvacValues3(j)
    case 4 => UvacValues4(j) case 5 => UvacValues5(j) case 6 => UvacValues6(j) case _ => 256
  }

  /** The smallest code of each length. */
  function UvacFirst(len: nat): nat {
    match len
    case 1 => 0 case 2 => 0 case 3 => 4 case 4 => 10 case 5 => 24 case 6 => 56 case 7 => 120 case 8 => 246
    case 9 => 500 case 10 => 1014 case 11 => 2038 case 12 => 4084 case 13 => 8176 case 14 => 16352 case 15 => 32706 case 16 => 65416
    case _ => 0
  }

  /** Where the values of each length start. */
  function UvacStart(len: nat): nat {
    match len
    case 1 => 0 case 2 => 0 case 3 => 2 case 4 => 3 case 5 => 5 case 6 => 9 case 7 => 13 case 8 => 16
    case 9 => 20 case 10 => 27 case 11 => 32 case 12 => 36 case 13 => 40 case 14 => 40 case 15 => 41 case 16 => 43
    case _ => 0
  }

  // ----- by table

  /** What the writer sends for symbol `s`. */
  function HuffmanCode(t: Table, s: nat): Code {
    match t
    case LuminanceDC => YdcCode(s)
    case ChrominanceDC => UvdcCode(s)
    case LuminanceAC => YacCode(s)
    case ChrominanceAC => UvacCode(s)
  }

  /** DHT: how many codes have each length from 1 to 16. */
  function Count(t: Table, len: nat): nat {
    match t
    case LuminanceDC => YdcCount(len)
    case ChrominanceDC => UvdcCount(len)
    case LuminanceAC => YacCount(len)
    case ChrominanceAC => UvacCount(len)
  }

  /** DHT: the symbols in order of increasing code length. */
  function Value(t: Table, i: nat): nat {
    match t
    case LuminanceDC => YdcValue(i)
    case ChrominanceDC => UvdcValue(i)
    case LuminanceAC => YacValue(i)
    case ChrominanceAC => UvacValue(i)
  }

  /** The smallest code of each length. */
  function First(t: Table, len: nat): nat {
    match t
    case LuminanceDC => YdcFirst(len)
    case ChrominanceDC => UvdcFirst(len)
    case LuminanceAC => YacFirst(len)
    case ChrominanceAC => UvacFirst(len)
  }

  /** Where the values of each length start. */
  function Start(t: Table, len: nat): nat {
    match t
    case LuminanceDC => YdcStart(len)
    case ChrominanceDC => UvdcStart(len)
    case LuminanceAC => YacStart(len)
    case ChrominanceAC => UvacStart(len)
  }

  /** How many symbols have a code. */
  function Size(t: Table): nat {
    if t.LuminanceDC? || t.ChrominanceDC? then 12 else 162
  }

  // ----- what the DHT segment says about a table, and the codes a decoder derives (section C.2 of ITU-T T.81)

  /** Sixteen counts, one for each code length from 1, and the symbols. */
  datatype Huffman = Huffman(counts: seq<byte>, values: seq<byte>) {
    function CountOf(len: nat): nat {
      if 1 <= len <= |counts| then counts[len - 1] else 0
    }

    /** MINCODE: codes of one length are consecutive, and the next length continues after a shift. */
    function MinCode(len: nat): nat {
      if len <= 1 then 0 else 2 * (MinCode(len - 1) + CountOf(len - 1))
    }

    /** VALPTR */
    function ValPtr(len: nat): nat {
      if len <= 1 then 0 else ValPtr(len - 1) + CountOf(len - 1)
    }
  }

  /** The table as it is sent. */
  function Sent(t: Table): (h: Huffman)
    ensures |h.counts| == 16 && |h.values| == Size(t)
  {
    Huffman(seq(16, i requires 0 <= i < 16 => UChar(Count(t, i + 1))),
            seq(Size(t), i requires 0 <= i < Size(t) => UChar(Value(t, i))))
  }

  lemma CountSmall(t: Table, len: nat)
    requires 1 <= len <= 16
    ensures Count(t, len) < 256
  {
    match t
    case LuminanceDC =>
    case ChrominanceDC =>
    case LuminanceAC =>
    case ChrominanceAC =>
  }

  lemma SentCount(t: Table, len: nat)
    requires 1 <= len <= 16
    ensures Sent(t).CountOf(len) == Count(t, len)
  {
    CountSmall(t, len);
    hide Count, Value;
  }

  /** The values of every length lie inside the table. */
  lemma ValuesInside(t: Table, len: nat)
    requires 1 <= len <= 16
    ensures Start(t, len) + Count(t, len) <= Size(t)
    ensures len == 16 ==> Start(t, len) + Count(t, len) == Size(t)
  {
    match t
    case LuminanceDC =>
    case ChrominanceDC =>
    case LuminanceAC =>
    case ChrominanceAC =>
  }

  lemma FirstStep(t: Table, len: nat)
    requires 1 < len <= 16
    ensures First(t, len) == 2 * (First(t, len - 1) + Count(t, len - 1))
    ensures Start(t, len) == Start(t, len - 1) + Count(t, len - 1)
  {
    match t
    case LuminanceDC =>
    case ChrominanceDC =>
    case LuminanceAC =>
    case ChrominanceAC =>
  }

  lemma {:induction false} FirstIsMinCode(t: Table, len: nat)
    requires 1 <= len <= 16
    ensures Sent(t).MinCode(len) == First(t, len) && Sent(t).ValPtr(len) == Start(t, len)
  {
    hide First, Start, Count, Sent, Huffman.CountOf;
    if len == 1 {
      FirstOfOne(t);
    } else {
      FirstIsMinCode(t, len - 1);
      FirstStep(t, len);
      SentCount(t, len - 1);
    }
  }

  /** The counts add up to the number of values. */
  lemma CountsFill(t: Table)
    ensures Sent(t).ValPtr(17) == Size(t)
  {
    hide First, Start, Count, Sent, Huffman.CountOf;
    FirstIsMinCode(t, 16);
    SentCount(t, 16);
    ValuesInside(t, 16);
  }

  lemma FirstOfOne(t: Table)
    ensures First(t, 1) == 0 && Start(t, 1) == 0
  {
  }

  /** The code word of `s` is the one the DHT segment assigns to `s`. */
  predicate Assigned(t: Table, s: nat) {
    var c := HuffmanCode(t, s);
    && 1 <= c.len <= 16
    && First(t, c.len) <= c.bits < First(t, c.len) + Count(t, c.len)
    && Value(t, Start(t, c.len) + (c.bits - First(t, c.len))) == s
  }

  lemma LuminanceDcAssigned(s: nat)
    requires s < 12
    ensures Assigned(LuminanceDC, s)
  {
  }

  lemma ChrominanceDcAssigned(s: nat)
    requires s < 12
    ensures Assigned(ChrominanceDC, s)
  {
  }

  lemma DcAssigned(t: Table, s: nat)
    requires (t.LuminanceDC? || t.ChrominanceDC?) && s < 12
    ensures Assigned(t, s)
  {
    hide Assigned;
    if t.LuminanceDC? { LuminanceDcAssigned(s); } else { ChrominanceDcAssigned(s); }
  }

  lemma LuminanceRow0(k: nat)
    requires 1 <= k <= 10
    ensures Assigned(LuminanceAC, k)
  {
    assert k / 16 == 0 && k % 16 == k;
  }

  lemma LuminanceRow1(k: nat)
    requires 1 <= k <= 10
    ensures Assigned(LuminanceAC, 16 + k)
  {
    assert (16 + k) / 16 == 1 && (16 + k) % 16 == k;
  }

  lemma LuminanceRows0(r: nat, k: nat)
    requires 2 <= r < 4 && 1 <= k <= 10
    ensures Assigned(LuminanceAC, 16 * r + k)
  {
    assert (16 * r + k) / 16 == r && (16 * r + k) % 16 == k;
  }

  lemma LuminanceRows1(r: nat, k: nat)
    requires 4 <= r < 8 && 1 <= k <= 10
    ensures Assigned(LuminanceAC, 16 * r + k)
  {
    assert (16 * r + k) / 16 == r && (16 * r + k) % 16 == k;
  }

  lemma LuminanceRows2(r: nat, k: nat)
    requires 8 <= r < 12 && 1 <= k <= 10
    ensures Assigned(LuminanceAC, 16 * r + k)
  {
    assert (16 * r + k) / 16 == r && (16 * r + k) % 16 == k;
  }

  lemma LuminanceRows3(r: nat, k: nat)
    requires 12 <= r < 16 && 1 <= k <= 10
    ensures Assigned(LuminanceAC, 16 * r + k)
  {
    assert (16 * r + k) / 16 == r && (16 * r + k) % 16 == k;
  }

  lemma ChrominanceRow0(k: nat)
    requires 1 <= k <= 10
    ensures Assigned(ChrominanceAC, k)
  {
    assert k / 16 == 0 && k % 16 == k;
  }

  lemma ChrominanceRow1(k: nat)
    requires 1 <= k <= 10
    ensures Assigned(ChrominanceAC, 16 + k)
  {
    assert (16 + k) / 16 == 1 && (16 + k) % 16 == k;
  }

  lemma ChrominanceRows0(r: nat, k: nat)
    requires 2 <= r < 4 && 1 <= k <= 10
    ensures Assigned(ChrominanceAC, 16 * r + k)
  {
    assert (16 * r + k) / 16 == r && (16 * r + k) % 16 == k;
  }

  lemma ChrominanceRows1(r: nat, k: nat)
    requires 4 <= r < 8 && 1 <= k <= 10
    ensures Assigned(ChrominanceAC, 16 * r + k)
  {
    assert (16 * r + k) / 16 == r && (16 * r + k) % 16 == k;
  }

  lemma ChrominanceRows2(r: nat, k: nat)
    requires 8 <= r < 12 && 1 <= k <= 10
    ensures Assigned(ChrominanceAC, 16 * r + k)
  {
    assert (16 * r + k) / 16 == r && (16 * r + k) % 16 == k;
  }

  lemma ChrominanceRows3(r: nat, k: nat)
    requires 12 <= r < 16 && 1 <= k <= 10
    ensures Assigned(ChrominanceAC, 16 * r + k)
  {
    assert (16 * r + k) / 16 == r && (16 * r + k) % 16 == k;
  }

  /** End of block, and sixteen zeros. */
  lemma SpecialAssigned(t: Table)
    requires t.LuminanceAC? || t.ChrominanceAC?
    ensures Assigned(t, 0x00) && Assigned(t, 0xF0)
  {
    LuminanceSpecial();
    ChrominanceSpecial();
    hide Assigned;
  }

  lemma LuminanceSpecial()
    ensures Assigned(LuminanceAC, 0x00) && Assigned(LuminanceAC, 0xF0)
  {
  }

  lemma ChrominanceSpecial()
    ensures Assigned(ChrominanceAC, 0x00) && Assigned(ChrominanceAC, 0xF0)
  {
  }

  /** Every symbol the encoder can need has a code, and it is the code the decoder will look up. */
  lemma AcAssigned(t: Table, r: nat, k: nat)
    requires (t.LuminanceAC? || t.ChrominanceAC?) && r < 16 && 1 <= k <= 10
    ensures Assigned(t, 16 * r + k)
  {
    hide Assigned;
    if t.LuminanceAC? {
      if r == 0 { LuminanceRow0(k); } else if r == 1 { LuminanceRow1(k); }
      else if r < 4 { LuminanceRows0(r, k); } else if r < 8 { LuminanceRows1(r, k); }
      else if r < 12 { LuminanceRows2(r, k); } else { LuminanceRows3(r, k); }
    } else {
      if r == 0 { ChrominanceRow0(k); } else if r == 1 { ChrominanceRow1(k); }
      else if r < 4 { ChrominanceRows0(r, k); } else if r < 8 { ChrominanceRows1(r, k); }
      else if r < 12 { ChrominanceRows2(r, k); } else { ChrominanceRows3(r, k); }
    }
  }
}
