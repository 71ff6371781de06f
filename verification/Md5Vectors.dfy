/** Three digests of the test suite in appendix A.5 of RFC 1321, by value, and the meaning of the length bytes. */
module Md5Vectors {
  import opened Common
  import opened AtText
  import opened Md5Compress
  import opened Md5
  import opened Md5Steps
  import Upload

  // ------------------------------------------------------------------ the length

  lemma LowIs(v: nat, b: Byte)
    requires v % 0x100 == b as nat
    ensures Low(v) == b
  {
  }

  lemma FirstByte(b: Byte, rest: nat)
    ensures (b as nat + 0x100 * rest) % 0x100 == b as nat && (b as nat + 0x100 * rest) / 0x100 == rest
  {
  }

  /** The number that bytes denote, least significant first. */
  function Value(s: seq<Byte>): nat {
    if s == [] then 0 else s[0] as nat + 0x100 * Value(s[1..])
  }

  lemma ByteAt(s: seq<Byte>)
    requires s != []
    ensures Low(Value(s)) == s[0] && Value(s) / 0x100 == Value(s[1..])
  {
    FirstByte(s[0], Value(s[1..]));
    LowIs(Value(s), s[0]);
    hide Low;
  }

  function Shifted(v: nat, n: nat): nat {
    if n == 0 then v else Shifted(v, n - 1) / 0x100
  }

  lemma Places(v: nat)
    ensures Shifted(v, 0) == v && Shifted(v, 1) == v / 0x100 && Shifted(v, 2) == v / 0x1_0000
    ensures Shifted(v, 3) == v / 0x100_0000 && Shifted(v, 4) == v / 0x1_0000_0000
    ensures Shifted(v, 5) == v / 0x100_0000_0000 && Shifted(v, 6) == v / 0x1_0000_0000_0000
    ensures Shifted(v, 7) == v / 0x100_0000_0000_0000
  {
  }

  lemma {:induction false} ShiftedValue(s: seq<Byte>, n: nat)
    requires n <= |s|
    ensures Shifted(Value(s), n) == Value(s[n..])
  {
    if n == 0 {
      assert s[0..] == s;
    } else {
      ShiftedValue(s, n - 1);
      ByteAt(s[n - 1..]);
      assert s[n - 1..][1..] == s[n..];
      hide Value, Low;
    }
  }

  /** The eight length bytes of a number are those that denote it. */
  lemma LengthDenotes(s: seq<Byte>, n: nat)
    requires |s| == 8 && n < 8
    ensures LittleEndian(Value(s))[n] == s[n]
  {
    hide Low, Value, Shifted;
    Places(Value(s));
    ShiftedValue(s, n);
    ByteAt(s[n..]);
    assert LittleEndian(Value(s))[n] == Low(Shifted(Value(s), n));
  }

  // ------------------------------------------------------------------ padding and folding

  lemma LengthBytes(v: nat)
    requires v < 0x1_0000
    ensures LittleEndian(v) == [Low(v), Low(v / 0x100), 0, 0, 0, 0, 0, 0]
  {
    hide Low;
    LowIs(0, 0);
    SmallLength(v);
  }

  lemma SmallLength(v: nat)
    requires v < 0x1_0000
    ensures v / 0x1_0000 == 0 && v / 0x100_0000 == 0 && v / 0x1_0000_0000 == 0 && v / 0x100_0000_0000 == 0
    ensures v / 0x1_0000_0000_0000 == 0 && v / 0x100_0000_0000_0000 == 0
  {
  }

  lemma OfFour<T>(a: seq<T>, b: seq<T>, c: seq<T>, d: seq<T>, i: nat)
    requires i < |a| + |b| + |c| + |d|
    ensures (a + b + c + d)[i] ==
            if i < |a| then a[i] else if i < |a| + |b| then b[i - |a|]
            else if i < |a| + |b| + |c| then c[i - |a| - |b|] else d[i - |a| - |b| - |c|]
  {
  }

  function PaddedLength(n: nat): nat {
    n + 1 + ZeroCount(n) + 8
  }

  /** Byte `i` of a padded message that is shorter than 2^13 bytes. */
  function PaddedByte(m: seq<Byte>, i: nat): Byte {
    var l := PaddedLength(|m|);
    if i < |m| then m[i] else if i == |m| then 0x80
    else if i == l - 8 then Low(8 * |m|) else if i == l - 7 then Low(8 * |m| / 0x100) else 0
  }

  lemma PaddedAt(m: seq<Byte>, i: nat)
    requires |m| < 0x2000 && i < PaddedLength(|m|)
    ensures |Padded(m)| == PaddedLength(|m|) && Padded(m)[i] == PaddedByte(m, i)
  {
    hide LittleEndian, ZeroCount, Low;
    LengthBytes(8 * |m|);
    OfFour(m, [0x80], Zeros(ZeroCount(|m|)), LittleEndian(8 * |m|), i);
  }

  function BlockAt(p: seq<Byte>, k: nat): Block
    requires 64 * k + 64 <= |p|
  {
    p[64 * k..64 * k + 64]
  }

  lemma PaddedWord(m: seq<Byte>, k: nat, i: nat, b0: Byte, b1: Byte, b2: Byte, b3: Byte, w: bv32)
    requires |m| < 0x2000 && i < 16 && 64 * k + 64 <= PaddedLength(|m|)
    requires PaddedByte(m, 64 * k + 4 * i) == b0 && PaddedByte(m, 64 * k + 4 * i + 1) == b1
    requires PaddedByte(m, 64 * k + 4 * i + 2) == b2 && PaddedByte(m, 64 * k + 4 * i + 3) == b3
    requires (b0 as bv32) | ((b1 as bv32) << 8) | ((b2 as bv32) << 16) | ((b3 as bv32) << 24) == w
    ensures |Padded(m)| == PaddedLength(|m|) && HasWord(Padded(m), k, i, w)
  {
    hide Padded, PaddedByte, PaddedLength;
    var at := 64 * k + 4 * i;
    PaddedAt(m, at);
    PaddedAt(m, at + 1);
    PaddedAt(m, at + 2);
    PaddedAt(m, at + 3);
    assert 4 * i == i * 4;
  }

  predicate HasWord(p: seq<Byte>, k: nat, i: nat, w: bv32) {
    i < 16 && 64 * k + 64 <= |p| && WordsOf(BlockAt(p, k))[i] == Word(w)
  }

  /** A word of the message, taken from a part of it that begins sixteen bytes, or a multiple of that,
    after its start. */
  lemma MessageWord(m: seq<Byte>, part: seq<Byte>, k: nat, i: nat, b0: Byte, b1: Byte, b2: Byte, b3: Byte, w: bv32)
    requires |m| < 0x2000 && i < 16 && 64 * k + 64 <= PaddedLength(|m|)
    requires 64 * k + 4 * i - i % 4 * 4 + |part| <= |m|
    requires m[64 * k + 4 * i - i % 4 * 4..64 * k + 4 * i - i % 4 * 4 + |part|] == part
    requires i % 4 * 4 + 3 < |part| && part[i % 4 * 4] == b0 && part[i % 4 * 4 + 1] == b1
    requires part[i % 4 * 4 + 2] == b2 && part[i % 4 * 4 + 3] == b3
    requires (b0 as bv32) | ((b1 as bv32) << 8) | ((b2 as bv32) << 16) | ((b3 as bv32) << 24) == w
    ensures |Padded(m)| == PaddedLength(|m|) && HasWord(Padded(m), k, i, w)
  {
    hide Padded, PaddedLength, WordsOf, BlockAt, ZeroCount, Low;
    var from, at := 64 * k + 4 * i - i % 4 * 4, i % 4 * 4;
    assert m[from..from + |part|][at] == m[from + at] && m[from..from + |part|][at + 1] == m[from + at + 1];
    assert m[from..from + |part|][at + 2] == m[from + at + 2] && m[from..from + |part|][at + 3] == m[from + at + 3];
    PaddedWord(m, k, i, b0, b1, b2, b3, w);
  }

  /** A word between the byte 0x80 and the length. */
  lemma ZeroWord(m: seq<Byte>, k: nat, i: nat)
    requires |m| < 0x2000 && i < 16 && 64 * k + 64 <= PaddedLength(|m|)
    requires |m| < 64 * k + 4 * i
    requires 64 * k + 4 * i + 4 <= PaddedLength(|m|) - 8 || PaddedLength(|m|) - 6 <= 64 * k + 4 * i
    ensures |Padded(m)| == PaddedLength(|m|) && HasWord(Padded(m), k, i, 0)
  {
    hide PaddedLength;
    NoBits();
    PaddedWord(m, k, i, 0, 0, 0, 0, 0);
  }

  lemma NoBits()
    ensures (0 as bv32) | ((0 as bv32) << 8) | ((0 as bv32) << 16) | ((0 as bv32) << 24) == 0
  {
  }

  lemma FoldOne(r: Regs, block: Block)
    ensures Fold(r, block) == Compress(r, block)
  {
    hide Compress;
    assert block[..64] == block && block[64..] == [];
  }

  lemma FoldTwo(r: Regs, p: seq<Byte>)
    requires |p| == 128
    ensures Fold(r, p) == Compress(Compress(r, p[..64]), p[64..])
  {
    hide Compress;
    FoldOne(Compress(r, p[..64]), p[64..]);
  }

  lemma WordHex(w: bv32, b0: Byte, b1: Byte, b2: Byte, b3: Byte, s: string)
    requires WordBytes(Word(w)) == [b0, b1, b2, b3]
    requires HexByte(b0) + HexByte(b1) + HexByte(b2) + HexByte(b3) == s
    ensures Hex(WordBytes(Word(w))) == s
  {
    hide WordBytes, HexByte;
    HexOfFour(b0, b1, b2, b3);
  }

  lemma HexOfFour(b0: Byte, b1: Byte, b2: Byte, b3: Byte)
    ensures Hex([b0, b1, b2, b3]) == HexByte(b0) + HexByte(b1) + HexByte(b2) + HexByte(b3)
  {
    hide HexByte;
    assert [b0, b1, b2, b3][1..] == [b1, b2, b3] && [b1, b2, b3][1..] == [b2, b3] && [b2, b3][1..] == [b3];
    assert Hex([b3]) == HexByte(b3) by { assert [b3][1..] == []; }
    assert Hex([b2, b3]) == HexByte(b2) + HexByte(b3);
    assert Hex([b1, b2, b3]) == HexByte(b1) + HexByte(b2) + HexByte(b3);
  }

  lemma {:induction false} HexConcat(a: seq<Byte>, b: seq<Byte>)
    ensures Hex(a + b) == Hex(a) + Hex(b)
    decreases |a|
  {
    hide HexByte;
    if a == [] {
      assert a + b == b;
    } else {
      assert (a + b)[1..] == a[1..] + b;
      HexConcat(a[1..], b);
    }
  }

  lemma RegsHex(r: Regs, s0: string, s1: string, s2: string, s3: string)
    requires Hex(WordBytes(r.a)) == s0 && Hex(WordBytes(r.b)) == s1
    requires Hex(WordBytes(r.c)) == s2 && Hex(WordBytes(r.d)) == s3
    ensures Hex(RegsBytes(r)) == s0 + s1 + s2 + s3
  {
    hide WordBytes, Hex;
    var a, b, c, d := WordBytes(r.a), WordBytes(r.b), WordBytes(r.c), WordBytes(r.d);
    HexConcat(a + b + c, d);
    HexConcat(a + b, c);
    HexConcat(a, b);
  }

  lemma RIs(a: bv32, b: bv32, c: bv32, d: bv32)
    ensures R(a, b, c, d).a == Word(a) && R(a, b, c, d).b == Word(b)
    ensures R(a, b, c, d).c == Word(c) && R(a, b, c, d).d == Word(d)
  {
  }

  lemma ZeroCountIs(n: nat, z: nat)
    requires z < 64 && (n + 1 + z) % 64 == 56
    ensures ZeroCount(n) == z
  {
  }

  lemma InitIs()
    ensures INIT == R(0x67452301, 0xEFCDAB89, 0x98BADCFE, 0x10325476)
  {
  }

  // ------------------------------------------------------------------ the empty message

  function EmptyMessage(): seq<Byte> {
    []
  }

  lemma EmptyRow1()
    ensures var p := Padded(EmptyMessage());
      |p| == 64 && HasWord(p, 0, 0, 0x00000080) && HasWord(p, 0, 1, 0x00000000)
      && HasWord(p, 0, 2, 0x00000000) && HasWord(p, 0, 3, 0x00000000)
  {
    hide Padded, WordsOf, ZeroCount, Low, HasWord;
    var m := EmptyMessage();
    ZeroCountIs(0, 55);
    PaddedWord(m, 0, 0, 0x80, 0x00, 0x00, 0x00, 0x00000080);
    ZeroWord(m, 0, 1);
    ZeroWord(m, 0, 2);
    ZeroWord(m, 0, 3);
  }

  lemma EmptyRow4()
    ensures var p := Padded(EmptyMessage());
      |p| == 64 && HasWord(p, 0, 12, 0x00000000) && HasWord(p, 0, 13, 0x00000000)
      && HasWord(p, 0, 14, 0x00000000) && HasWord(p, 0, 15, 0x00000000)
  {
    hide Padded, WordsOf, ZeroCount, Low, HasWord;
    var m := EmptyMessage();
    ZeroCountIs(0, 55);
    ZeroWord(m, 0, 12);
    ZeroWord(m, 0, 13);
    LowIs(0, 0x00);
    PaddedWord(m, 0, 14, 0x00, 0x00, 0x00, 0x00, 0x00000000);
    ZeroWord(m, 0, 15);
  }

  lemma EmptyBlock()
    ensures var p := Padded(EmptyMessage()); |p| == 64 && IsEmpty(WordsOf(BlockAt(p, 0)))
  {
    hide Padded, WordsOf, ZeroCount, BlockAt;
    var m := EmptyMessage();
    ZeroCountIs(0, 55);
    EmptyRow1();
    ZeroWord(m, 0, 4);
    ZeroWord(m, 0, 5);
    ZeroWord(m, 0, 6);
    ZeroWord(m, 0, 7);
    ZeroWord(m, 0, 8);
    ZeroWord(m, 0, 9);
    ZeroWord(m, 0, 10);
    ZeroWord(m, 0, 11);
    EmptyRow4();
  }

  lemma EmptyFold()
    ensures Fold(INIT, Padded(EmptyMessage())) == R(0xD98C1DD4, 0x04B2008F, 0x980980E9, 0x7E42F8EC)
  {
    hide Compress, Padded, WordsOf, Fold, Steps, R;
    var p := Padded(EmptyMessage());
    EmptyBlock();
    assert BlockAt(p, 0) == p;
    EmptyRound4(WordsOf(p));
    InitIs();
    Summed(INIT, p, WordsOf(p), 0x67452301, 0xEFCDAB89, 0x98BADCFE, 0x10325476, 0x7246FAD3, 0x14E45506, 0xFF4EA3EB,
      0x6E10A476);
    FoldOne(INIT, p);
  }

  lemma EmptyHex1()
    ensures Hex(WordBytes(Word(0xD98C1DD4))) == "d41d8cd9"
  {
    WordHex(0xD98C1DD4, 0xD4, 0x1D, 0x8C, 0xD9, "d41d8cd9");
  }

  lemma EmptyHex2()
    ensures Hex(WordBytes(Word(0x04B2008F))) == "8f00b204"
  {
    WordHex(0x04B2008F, 0x8F, 0x00, 0xB2, 0x04, "8f00b204");
  }

  lemma EmptyHex3()
    ensures Hex(WordBytes(Word(0x980980E9))) == "e9800998"
  {
    WordHex(0x980980E9, 0xE9, 0x80, 0x09, 0x98, "e9800998");
  }

  lemma EmptyHex4()
    ensures Hex(WordBytes(Word(0x7E42F8EC))) == "ecf8427e"
  {
    WordHex(0x7E42F8EC, 0xEC, 0xF8, 0x42, 0x7E, "ecf8427e");
  }

  lemma EmptyDigest()
    ensures Upload.Md5Hex(EmptyMessage()) == "d41d8cd98f00b204e9800998ecf8427e"
  {
    hide Fold, Padded, Hex, RegsBytes, WordBytes, R;
    EmptyFold();
    EmptyHex1();
    EmptyHex2();
    EmptyHex3();
    EmptyHex4();
    RIs(0xD98C1DD4, 0x04B2008F, 0x980980E9, 0x7E42F8EC);
    RegsHex(R(0xD98C1DD4, 0x04B2008F, 0x980980E9, 0x7E42F8EC), "d41d8cd9", "8f00b204", "e9800998", "ecf8427e");
    assert "d41d8cd9" + "8f00b204" + "e9800998" + "ecf8427e"
           == "d41d8cd98f00b204e9800998ecf8427e";
  }

  // ------------------------------------------------------------------ "abc"

  function AbcMessage(): seq<Byte> {
    [0x61, 0x62, 0x63]
  }

  lemma AbcRow1()
    ensures var p := Padded(AbcMessage());
      |p| == 64 && HasWord(p, 0, 0, 0x80636261) && HasWord(p, 0, 1, 0x00000000)
      && HasWord(p, 0, 2, 0x00000000) && HasWord(p, 0, 3, 0x00000000)
  {
    hide Padded, WordsOf, ZeroCount, Low, HasWord;
    var m := AbcMessage();
    ZeroCountIs(3, 52);
    PaddedWord(m, 0, 0, 0x61, 0x62, 0x63, 0x80, 0x80636261);
    ZeroWord(m, 0, 1);
    ZeroWord(m, 0, 2);
    ZeroWord(m, 0, 3);
  }

  lemma AbcRow4()
    ensures var p := Padded(AbcMessage());
      |p| == 64 && HasWord(p, 0, 12, 0x00000000) && HasWord(p, 0, 13, 0x00000000)
      && HasWord(p, 0, 14, 0x00000018) && HasWord(p, 0, 15, 0x00000000)
  {
    hide Padded, WordsOf, ZeroCount, Low, HasWord;
    var m := AbcMessage();
    ZeroCountIs(3, 52);
    ZeroWord(m, 0, 12);
    ZeroWord(m, 0, 13);
    LowIs(24, 0x18);
    LowIs(0, 0x00);
    PaddedWord(m, 0, 14, 0x18, 0x00, 0x00, 0x00, 0x00000018);
    ZeroWord(m, 0, 15);
  }

  lemma AbcBlock()
    ensures var p := Padded(AbcMessage()); |p| == 64 && IsAbc(WordsOf(BlockAt(p, 0)))
  {
    hide Padded, WordsOf, ZeroCount, BlockAt;
    var m := AbcMessage();
    ZeroCountIs(3, 52);
    AbcRow1();
    ZeroWord(m, 0, 4);
    ZeroWord(m, 0, 5);
    ZeroWord(m, 0, 6);
    ZeroWord(m, 0, 7);
    ZeroWord(m, 0, 8);
    ZeroWord(m, 0, 9);
    ZeroWord(m, 0, 10);
    ZeroWord(m, 0, 11);
    AbcRow4();
  }

  lemma AbcFold()
    ensures Fold(INIT, Padded(AbcMessage())) == R(0x98500190, 0xB04FD23C, 0x7D3F96D6, 0x727FE128)
  {
    hide Compress, Padded, WordsOf, Fold, Steps, R;
    var p := Padded(AbcMessage());
    AbcBlock();
    assert BlockAt(p, 0) == p;
    AbcRound4(WordsOf(p));
    InitIs();
    Summed(INIT, p, WordsOf(p), 0x67452301, 0xEFCDAB89, 0x98BADCFE, 0x10325476, 0x310ADE8F, 0xC08226B3, 0xE484B9D8,
      0x624D8CB2);
    FoldOne(INIT, p);
  }

  lemma AbcHex1()
    ensures Hex(WordBytes(Word(0x98500190))) == "90015098"
  {
    WordHex(0x98500190, 0x90, 0x01, 0x50, 0x98, "90015098");
  }

  lemma AbcHex2()
    ensures Hex(WordBytes(Word(0xB04FD23C))) == "3cd24fb0"
  {
    WordHex(0xB04FD23C, 0x3C, 0xD2, 0x4F, 0xB0, "3cd24fb0");
  }

  lemma AbcHex3()
    ensures Hex(WordBytes(Word(0x7D3F96D6))) == "d6963f7d"
  {
    WordHex(0x7D3F96D6, 0xD6, 0x96, 0x3F, 0x7D, "d6963f7d");
  }

  lemma AbcHex4()
    ensures Hex(WordBytes(Word(0x727FE128))) == "28e17f72"
  {
    WordHex(0x727FE128, 0x28, 0xE1, 0x7F, 0x72, "28e17f72");
  }

  lemma AbcDigest()
    ensures Upload.Md5Hex(AbcMessage()) == "900150983cd24fb0d6963f7d28e17f72"
  {
    hide Fold, Padded, Hex, RegsBytes, WordBytes, R;
    AbcFold();
    AbcHex1();
    AbcHex2();
    AbcHex3();
    AbcHex4();
    RIs(0x98500190, 0xB04FD23C, 0x7D3F96D6, 0x727FE128);
    RegsHex(R(0x98500190, 0xB04FD23C, 0x7D3F96D6, 0x727FE128), "90015098", "3cd24fb0", "d6963f7d", "28e17f72");
    assert "90015098" + "3cd24fb0" + "d6963f7d" + "28e17f72"
           == "900150983cd24fb0d6963f7d28e17f72";
  }

  // ------------------------------------------------------------------ the letters and digits

  function AlnumPart1(): seq<Byte> {
    [0x41, 0x42, 0x43, 0x44, 0x45, 0x46, 0x47, 0x48, 0x49, 0x4A, 0x4B, 0x4C, 0x4D, 0x4E, 0x4F, 0x50]
  }

  function AlnumPart2(): seq<Byte> {
    [0x51, 0x52, 0x53, 0x54, 0x55, 0x56, 0x57, 0x58, 0x59, 0x5A, 0x61, 0x62, 0x63, 0x64, 0x65, 0x66]
  }

  function AlnumPart3(): seq<Byte> {
    [0x67, 0x68, 0x69, 0x6A, 0x6B, 0x6C, 0x6D, 0x6E, 0x6F, 0x70, 0x71, 0x72, 0x73, 0x74, 0x75, 0x76]
  }

  function AlnumPart4(): seq<Byte> {
    [0x77, 0x78, 0x79, 0x7A, 0x30, 0x31, 0x32, 0x33, 0x34, 0x35, 0x36, 0x37, 0x38, 0x39]
  }

  function AlnumMessage(): seq<Byte> {
    AlnumPart1() + AlnumPart2() + AlnumPart3() + AlnumPart4()
  }

  lemma AlnumParts()
    ensures var m := AlnumMessage();
      |m| == 62 && m[0..16] == AlnumPart1() && m[16..32] == AlnumPart2() && m[32..48] == AlnumPart3()
      && m[48..62] == AlnumPart4()
  {
  }

  lemma AlnumLastWord()
    ensures var p := Padded(AlnumMessage()); HasWord(p, 0, 15, 0x00803938)
  {
    hide Padded, HasWord, Low, ZeroCount, AlnumMessage;
    var m := AlnumMessage();
    AlnumParts();
    ZeroCountIs(62, 57);
    assert m[48..62][12] == m[60] && m[48..62][13] == m[61];
    PaddedWord(m, 0, 15, 0x38, 0x39, 0x80, 0x00, 0x00803938);
  }

  lemma AlnumFirstRow1()
    ensures var p := Padded(AlnumMessage());
      |p| == 128 && HasWord(p, 0, 0, 0x44434241) && HasWord(p, 0, 1, 0x48474645)
      && HasWord(p, 0, 2, 0x4C4B4A49) && HasWord(p, 0, 3, 0x504F4E4D)
  {
    hide Padded, WordsOf, ZeroCount, Low, HasWord, AlnumMessage;
    var m := AlnumMessage();
    ZeroCountIs(62, 57);
    AlnumParts();
    MessageWord(m, AlnumPart1(), 0, 0, 0x41, 0x42, 0x43, 0x44, 0x44434241);
    MessageWord(m, AlnumPart1(), 0, 1, 0x45, 0x46, 0x47, 0x48, 0x48474645);
    MessageWord(m, AlnumPart1(), 0, 2, 0x49, 0x4A, 0x4B, 0x4C, 0x4C4B4A49);
    MessageWord(m, AlnumPart1(), 0, 3, 0x4D, 0x4E, 0x4F, 0x50, 0x504F4E4D);
  }

  lemma AlnumFirstRow2()
    ensures var p := Padded(AlnumMessage());
      |p| == 128 && HasWord(p, 0, 4, 0x54535251) && HasWord(p, 0, 5, 0x58575655)
      && HasWord(p, 0, 6, 0x62615A59) && HasWord(p, 0, 7, 0x66656463)
  {
    hide Padded, WordsOf, ZeroCount, Low, HasWord, AlnumMessage;
    var m := AlnumMessage();
    ZeroCountIs(62, 57);
    AlnumParts();
    MessageWord(m, AlnumPart2(), 0, 4, 0x51, 0x52, 0x53, 0x54, 0x54535251);
    MessageWord(m, AlnumPart2(), 0, 5, 0x55, 0x56, 0x57, 0x58, 0x58575655);
    MessageWord(m, AlnumPart2(), 0, 6, 0x59, 0x5A, 0x61, 0x62, 0x62615A59);
    MessageWord(m, AlnumPart2(), 0, 7, 0x63, 0x64, 0x65, 0x66, 0x66656463);
  }

  lemma AlnumFirstRow3()
    ensures var p := Padded(AlnumMessage());
      |p| == 128 && HasWord(p, 0, 8, 0x6A696867) && HasWord(p, 0, 9, 0x6E6D6C6B)
      && HasWord(p, 0, 10, 0x7271706F) && HasWord(p, 0, 11, 0x76757473)
  {
    hide Padded, WordsOf, ZeroCount, Low, HasWord, AlnumMessage;
    var m := AlnumMessage();
    ZeroCountIs(62, 57);
    AlnumParts();
    MessageWord(m, AlnumPart3(), 0, 8, 0x67, 0x68, 0x69, 0x6A, 0x6A696867);
    MessageWord(m, AlnumPart3(), 0, 9, 0x6B, 0x6C, 0x6D, 0x6E, 0x6E6D6C6B);
    MessageWord(m, AlnumPart3(), 0, 10, 0x6F, 0x70, 0x71, 0x72, 0x7271706F);
    MessageWord(m, AlnumPart3(), 0, 11, 0x73, 0x74, 0x75, 0x76, 0x76757473);
  }

  lemma AlnumFirstRow4()
    ensures var p := Padded(AlnumMessage());
      |p| == 128 && HasWord(p, 0, 12, 0x7A797877) && HasWord(p, 0, 13, 0x33323130)
      && HasWord(p, 0, 14, 0x37363534) && HasWord(p, 0, 15, 0x00803938)
  {
    hide Padded, WordsOf, ZeroCount, Low, HasWord, AlnumMessage;
    var m := AlnumMessage();
    ZeroCountIs(62, 57);
    AlnumParts();
    MessageWord(m, AlnumPart4(), 0, 12, 0x77, 0x78, 0x79, 0x7A, 0x7A797877);
    MessageWord(m, AlnumPart4(), 0, 13, 0x30, 0x31, 0x32, 0x33, 0x33323130);
    MessageWord(m, AlnumPart4(), 0, 14, 0x34, 0x35, 0x36, 0x37, 0x37363534);
    AlnumLastWord();
  }

  lemma AlnumFirstBlock()
    ensures var p := Padded(AlnumMessage()); |p| == 128 && IsAlnumFirst(WordsOf(BlockAt(p, 0)))
  {
    hide Padded, WordsOf, ZeroCount, BlockAt;
    var m := AlnumMessage();
    ZeroCountIs(62, 57);
    AlnumFirstRow1();
    AlnumFirstRow2();
    AlnumFirstRow3();
    AlnumFirstRow4();
  }

  lemma AlnumSecondRow4()
    ensures var p := Padded(AlnumMessage());
      |p| == 128 && HasWord(p, 1, 12, 0x00000000) && HasWord(p, 1, 13, 0x00000000)
      && HasWord(p, 1, 14, 0x000001F0) && HasWord(p, 1, 15, 0x00000000)
  {
    hide Padded, WordsOf, ZeroCount, Low, HasWord;
    var m := AlnumMessage();
    ZeroCountIs(62, 57);
    ZeroWord(m, 1, 12);
    ZeroWord(m, 1, 13);
    LowIs(496, 0xF0);
    LowIs(1, 0x01);
    PaddedWord(m, 1, 14, 0xF0, 0x01, 0x00, 0x00, 0x000001F0);
    ZeroWord(m, 1, 15);
  }

  lemma AlnumSecondBlock()
    ensures var p := Padded(AlnumMessage()); |p| == 128 && IsAlnumSecond(WordsOf(BlockAt(p, 1)))
  {
    hide Padded, WordsOf, ZeroCount, BlockAt;
    var m := AlnumMessage();
    ZeroCountIs(62, 57);
    ZeroWord(m, 1, 0);
    ZeroWord(m, 1, 1);
    ZeroWord(m, 1, 2);
    ZeroWord(m, 1, 3);
    ZeroWord(m, 1, 4);
    ZeroWord(m, 1, 5);
    ZeroWord(m, 1, 6);
    ZeroWord(m, 1, 7);
    ZeroWord(m, 1, 8);
    ZeroWord(m, 1, 9);
    ZeroWord(m, 1, 10);
    ZeroWord(m, 1, 11);
    AlnumSecondRow4();
  }

  lemma AlnumFold()
    ensures Fold(INIT, Padded(AlnumMessage())) == R(0x98AB74D1, 0xF5D977D2, 0x2C1C61A5, 0x9F9D419F)
  {
    hide Compress, Padded, WordsOf, Fold, Steps, R;
    var p := Padded(AlnumMessage());
    AlnumFirstBlock();
    AlnumSecondBlock();
    assert BlockAt(p, 0) == p[..64] && BlockAt(p, 1) == p[64..];
    AlnumFirstRound4(WordsOf(p[..64]));
    AlnumSecondRound4(WordsOf(p[64..]));
    InitIs();
    Summed(INIT, p[..64], WordsOf(p[..64]), 0x67452301, 0xEFCDAB89, 0x98BADCFE, 0x10325476,
           0x1CB80F0A, 0xEF2E3A46, 0x10F68731, 0xEA3D3EB4);
    var r := R(0x83FD320B, 0xDEFBE5CF, 0xA9B1642F, 0xFA6F932A);
    Summed(r, p[64..], WordsOf(p[64..]), 0x83FD320B, 0xDEFBE5CF, 0xA9B1642F, 0xFA6F932A,
           0x14AE42C6, 0x16DD9203, 0x826AFD76, 0xA52DAE75);
    FoldTwo(INIT, p);
  }

  lemma AlnumHex1()
    ensures Hex(WordBytes(Word(0x98AB74D1))) == "d174ab98"
  {
    WordHex(0x98AB74D1, 0xD1, 0x74, 0xAB, 0x98, "d174ab98");
  }

  lemma AlnumHex2()
    ensures Hex(WordBytes(Word(0xF5D977D2))) == "d277d9f5"
  {
    WordHex(0xF5D977D2, 0xD2, 0x77, 0xD9, 0xF5, "d277d9f5");
  }

  lemma AlnumHex3()
    ensures Hex(WordBytes(Word(0x2C1C61A5))) == "a5611c2c"
  {
    WordHex(0x2C1C61A5, 0xA5, 0x61, 0x1C, 0x2C, "a5611c2c");
  }

  lemma AlnumHex4()
    ensures Hex(WordBytes(Word(0x9F9D419F))) == "9f419d9f"
  {
    WordHex(0x9F9D419F, 0x9F, 0x41, 0x9D, 0x9F, "9f419d9f");
  }

  lemma AlnumDigest()
    ensures Upload.Md5Hex(AlnumMessage()) == "d174ab98d277d9f5a5611c2c9f419d9f"
  {
    hide Fold, Padded, Hex, RegsBytes, WordBytes, R;
    AlnumFold();
    AlnumHex1();
    AlnumHex2();
    AlnumHex3();
    AlnumHex4();
    RIs(0x98AB74D1, 0xF5D977D2, 0x2C1C61A5, 0x9F9D419F);
    RegsHex(R(0x98AB74D1, 0xF5D977D2, 0x2C1C61A5, 0x9F9D419F), "d174ab98", "d277d9f5", "a5611c2c", "9f419d9f");
    assert "d174ab98" + "d277d9f5" + "a5611c2c" + "9f419d9f"
           == "d174ab98d277d9f5a5611c2c9f419d9f";
  }
}
