/** CRC16 digests by value: the check value of CRC-16/CCITT-FALSE, and the digest of "abc". */
module CrcVectors {
  import opened Common
  import opened Crc16

  lemma EightTurns(s: bv16, s1: bv16, s2: bv16, s3: bv16, s4: bv16, s5: bv16, s6: bv16, s7: bv16, s8: bv16)
    requires MulX(s) == s1 && MulX(s1) == s2 && MulX(s2) == s3 && MulX(s3) == s4
    requires MulX(s4) == s5 && MulX(s5) == s6 && MulX(s6) == s7 && MulX(s7) == s8
    ensures MulXn(s, 8) == s8
  {
    hide MulX;
    assert MulXn(s4, 4) == s8;
    assert MulXn(s, 8) == MulXn(s4, 4);
  }

  /** Taking one byte into the register. */
  lemma Taken(s: bv16, b: Byte, s0: bv16, t: bv16)
    requires s ^ ((b as bv16) << 8) == s0 && MulXn(s0, 8) == t
    ensures AddByte(s, b) == t
  {
    hide MulXn;
  }

  lemma FirstByte(s: bv16, b: Byte, t: bv16, data: seq<Byte>)
    requires AddByte(s, b) == t
    ensures CrcFrom(s, [b] + data) == CrcFrom(t, data)
  {
    hide AddByte;
    assert ([b] + data)[1..] == data;
  }

  lemma NoByte(s: bv16)
    ensures CrcFrom(s, []) == s
  {
  }

  lemma CheckValueByte1()
    ensures AddByte(0xFFFF, 0x31) == 0xC782
  {
    EightTurns(0xCEFF, 0x8DDF, 0x0B9F, 0x173E, 0x2E7C, 0x5CF8, 0xB9F0, 0x63C1, 0xC782);
    Taken(0xFFFF, 0x31, 0xCEFF, 0xC782);
  }

  lemma CheckValueByte2()
    ensures AddByte(0xC782, 0x32) == 0x3DBA
  {
    EightTurns(0xF582, 0xFB25, 0xE66B, 0xDCF7, 0xA9CF, 0x43BF, 0x877E, 0x1EDD, 0x3DBA);
    Taken(0xC782, 0x32, 0xF582, 0x3DBA);
  }

  lemma CheckValueByte3()
    ensures AddByte(0x3DBA, 0x33) == 0x5BCE
  {
    EightTurns(0x0EBA, 0x1D74, 0x3AE8, 0x75D0, 0xEBA0, 0xC761, 0x9EE3, 0x2DE7, 0x5BCE);
    Taken(0x3DBA, 0x33, 0x0EBA, 0x5BCE);
  }

  lemma CheckValueByte4()
    ensures AddByte(0x5BCE, 0x34) == 0x5349
  {
    EightTurns(0x6FCE, 0xDF9C, 0xAF19, 0x4E13, 0x9C26, 0x286D, 0x50DA, 0xA1B4, 0x5349);
    Taken(0x5BCE, 0x34, 0x6FCE, 0x5349);
  }

  lemma CheckValueByte5()
    ensures AddByte(0x5349, 0x35) == 0x4560
  {
    EightTurns(0x6649, 0xCC92, 0x8905, 0x022B, 0x0456, 0x08AC, 0x1158, 0x22B0, 0x4560);
    Taken(0x5349, 0x35, 0x6649, 0x4560);
  }

  lemma CheckValueByte6()
    ensures AddByte(0x4560, 0x36) == 0x2EF4
  {
    EightTurns(0x7360, 0xE6C0, 0xDDA1, 0xAB63, 0x46E7, 0x8DCE, 0x0BBD, 0x177A, 0x2EF4);
    Taken(0x4560, 0x36, 0x7360, 0x2EF4);
  }

  lemma CheckValueByte7()
    ensures AddByte(0x2EF4, 0x37) == 0x7718
  {
    EightTurns(0x19F4, 0x33E8, 0x67D0, 0xCFA0, 0x8F61, 0x0EE3, 0x1DC6, 0x3B8C, 0x7718);
    Taken(0x2EF4, 0x37, 0x19F4, 0x7718);
  }

  lemma CheckValueByte8()
    ensures AddByte(0x7718, 0x38) == 0xA12B
  {
    EightTurns(0x4F18, 0x9E30, 0x2C41, 0x5882, 0xB104, 0x7229, 0xE452, 0xD885, 0xA12B);
    Taken(0x7718, 0x38, 0x4F18, 0xA12B);
  }

  lemma CheckValueByte9()
    ensures AddByte(0xA12B, 0x39) == 0x29B1
  {
    EightTurns(0x982B, 0x2077, 0x40EE, 0x81DC, 0x1399, 0x2732, 0x4E64, 0x9CC8, 0x29B1);
    Taken(0xA12B, 0x39, 0x982B, 0x29B1);
  }

  lemma CheckValue()
    ensures Crc([0x31, 0x32, 0x33, 0x34, 0x35, 0x36, 0x37, 0x38, 0x39]) == 0x29B1
  {
    hide AddByte, CrcFrom;
    var m0: seq<Byte> := [0x31, 0x32, 0x33, 0x34, 0x35, 0x36, 0x37, 0x38, 0x39];
    var m1: seq<Byte> := [0x32, 0x33, 0x34, 0x35, 0x36, 0x37, 0x38, 0x39];
    var m2: seq<Byte> := [0x33, 0x34, 0x35, 0x36, 0x37, 0x38, 0x39];
    var m3: seq<Byte> := [0x34, 0x35, 0x36, 0x37, 0x38, 0x39];
    var m4: seq<Byte> := [0x35, 0x36, 0x37, 0x38, 0x39];
    var m5: seq<Byte> := [0x36, 0x37, 0x38, 0x39];
    var m6: seq<Byte> := [0x37, 0x38, 0x39];
    var m7: seq<Byte> := [0x38, 0x39];
    var m8: seq<Byte> := [0x39];
    var m9: seq<Byte> := [];
    CheckValueByte1();
    FirstByte(0xFFFF, 0x31, 0xC782, m1);
    assert [0x31] + m1 == m0;
    CheckValueByte2();
    FirstByte(0xC782, 0x32, 0x3DBA, m2);
    assert [0x32] + m2 == m1;
    CheckValueByte3();
    FirstByte(0x3DBA, 0x33, 0x5BCE, m3);
    assert [0x33] + m3 == m2;
    CheckValueByte4();
    FirstByte(0x5BCE, 0x34, 0x5349, m4);
    assert [0x34] + m4 == m3;
    CheckValueByte5();
    FirstByte(0x5349, 0x35, 0x4560, m5);
    assert [0x35] + m5 == m4;
    CheckValueByte6();
    FirstByte(0x4560, 0x36, 0x2EF4, m6);
    assert [0x36] + m6 == m5;
    CheckValueByte7();
    FirstByte(0x2EF4, 0x37, 0x7718, m7);
    assert [0x37] + m7 == m6;
    CheckValueByte8();
    FirstByte(0x7718, 0x38, 0xA12B, m8);
    assert [0x38] + m8 == m7;
    CheckValueByte9();
    FirstByte(0xA12B, 0x39, 0x29B1, m9);
    assert [0x39] + m9 == m8;
    NoByte(0x29B1);
  }

  lemma CrcOfAbcByte1()
    ensures AddByte(0xFFFF, 0x61) == 0x9D77
  {
    EightTurns(0x9EFF, 0x2DDF, 0x5BBE, 0xB77C, 0x7ED9, 0xFDB2, 0xEB45, 0xC6AB, 0x9D77);
    Taken(0xFFFF, 0x61, 0x9EFF, 0x9D77);
  }

  lemma CrcOfAbcByte2()
    ensures AddByte(0x9D77, 0x62) == 0x69F0
  {
    EightTurns(0xFF77, 0xEECF, 0xCDBF, 0x8B5F, 0x069F, 0x0D3E, 0x1A7C, 0x34F8, 0x69F0);
    Taken(0x9D77, 0x62, 0xFF77, 0x69F0);
  }

  lemma CrcOfAbcByte3()
    ensures AddByte(0x69F0, 0x63) == 0x514A
  {
    EightTurns(0x0AF0, 0x15E0, 0x2BC0, 0x5780, 0xAF00, 0x4E21, 0x9C42, 0x28A5, 0x514A);
    Taken(0x69F0, 0x63, 0x0AF0, 0x514A);
  }

  lemma CrcOfAbc()
    ensures Crc([0x61, 0x62, 0x63]) == 0x514A
  {
    hide AddByte, CrcFrom;
    var m0: seq<Byte> := [0x61, 0x62, 0x63];
    var m1: seq<Byte> := [0x62, 0x63];
    var m2: seq<Byte> := [0x63];
    var m3: seq<Byte> := [];
    CrcOfAbcByte1();
    FirstByte(0xFFFF, 0x61, 0x9D77, m1);
    assert [0x61] + m1 == m0;
    CrcOfAbcByte2();
    FirstByte(0x9D77, 0x62, 0x69F0, m2);
    assert [0x62] + m2 == m1;
    CrcOfAbcByte3();
    FirstByte(0x69F0, 0x63, 0x514A, m3);
    assert [0x63] + m3 == m2;
    NoByte(0x514A);
  }
}
