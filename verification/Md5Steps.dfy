/** The compression of four blocks by value, one step at a time. */
module Md5Steps {
  import opened Md5Compress

  function R(a: bv32, b: bv32, c: bv32, d: bv32): Regs {
    Regs(Word(a), Word(b), Word(c), Word(d))
  }

  // ------------------------------------------------------------------ the table of steps

  /** Step `i` takes word `k`, turns by `s` places and adds `t`. */
  predicate Entry(i: nat, k: nat, s: bv32, t: bv32) {
    i < 64 && Index(i) == k && Amount(i) == s && T(i) == Word(t)
  }

  lemma Row0()
    ensures Entry(0, 0, 7, 0xD76AA478) && Entry(1, 1, 12, 0xE8C7B756) && Entry(2, 2, 17, 0x242070DB)
            && Entry(3, 3, 22, 0xC1BDCEEE)
  {
  }

  lemma Row4()
    ensures Entry(4, 4, 7, 0xF57C0FAF) && Entry(5, 5, 12, 0x4787C62A) && Entry(6, 6, 17, 0xA8304613)
            && Entry(7, 7, 22, 0xFD469501)
  {
  }

  lemma Row8()
    ensures Entry(8, 8, 7, 0x698098D8) && Entry(9, 9, 12, 0x8B44F7AF) && Entry(10, 10, 17, 0xFFFF5BB1)
            && Entry(11, 11, 22, 0x895CD7BE)
  {
  }

  lemma Row12()
    ensures Entry(12, 12, 7, 0x6B901122) && Entry(13, 13, 12, 0xFD987193) && Entry(14, 14, 17, 0xA679438E)
            && Entry(15, 15, 22, 0x49B40821)
  {
  }

  lemma Row16()
    ensures Entry(16, 1, 5, 0xF61E2562) && Entry(17, 6, 9, 0xC040B340) && Entry(18, 11, 14, 0x265E5A51)
            && Entry(19, 0, 20, 0xE9B6C7AA)
  {
  }

  lemma Row20()
    ensures Entry(20, 5, 5, 0xD62F105D) && Entry(21, 10, 9, 0x02441453) && Entry(22, 15, 14, 0xD8A1E681)
            && Entry(23, 4, 20, 0xE7D3FBC8)
  {
  }

  lemma Row24()
    ensures Entry(24, 9, 5, 0x21E1CDE6) && Entry(25, 14, 9, 0xC33707D6) && Entry(26, 3, 14, 0xF4D50D87)
            && Entry(27, 8, 20, 0x455A14ED)
  {
  }

  lemma Row28()
    ensures Entry(28, 13, 5, 0xA9E3E905) && Entry(29, 2, 9, 0xFCEFA3F8) && Entry(30, 7, 14, 0x676F02D9)
            && Entry(31, 12, 20, 0x8D2A4C8A)
  {
  }

  lemma Row32()
    ensures Entry(32, 5, 4, 0xFFFA3942) && Entry(33, 8, 11, 0x8771F681) && Entry(34, 11, 16, 0x6D9D6122)
            && Entry(35, 14, 23, 0xFDE5380C)
  {
  }

  lemma Row36()
    ensures Entry(36, 1, 4, 0xA4BEEA44) && Entry(37, 4, 11, 0x4BDECFA9) && Entry(38, 7, 16, 0xF6BB4B60)
            && Entry(39, 10, 23, 0xBEBFBC70)
  {
  }

  lemma Row40()
    ensures Entry(40, 13, 4, 0x289B7EC6) && Entry(41, 0, 11, 0xEAA127FA) && Entry(42, 3, 16, 0xD4EF3085)
            && Entry(43, 6, 23, 0x04881D05)
  {
  }

  lemma Row44()
    ensures Entry(44, 9, 4, 0xD9D4D039) && Entry(45, 12, 11, 0xE6DB99E5) && Entry(46, 15, 16, 0x1FA27CF8)
            && Entry(47, 2, 23, 0xC4AC5665)
  {
  }

  lemma Row48()
    ensures Entry(48, 0, 6, 0xF4292244) && Entry(49, 7, 10, 0x432AFF97) && Entry(50, 14, 15, 0xAB9423A7)
            && Entry(51, 5, 21, 0xFC93A039)
  {
  }

  lemma Row52()
    ensures Entry(52, 12, 6, 0x655B59C3) && Entry(53, 3, 10, 0x8F0CCC92) && Entry(54, 10, 15, 0xFFEFF47D)
            && Entry(55, 1, 21, 0x85845DD1)
  {
  }

  lemma Row56()
    ensures Entry(56, 8, 6, 0x6FA87E4F) && Entry(57, 15, 10, 0xFE2CE6E0) && Entry(58, 6, 15, 0xA3014314)
            && Entry(59, 13, 21, 0x4E0811A1)
  {
  }

  lemma Row60()
    ensures Entry(60, 4, 6, 0xF7537E82) && Entry(61, 11, 10, 0xBD3AF235) && Entry(62, 2, 15, 0x2AD7D2BB)
            && Entry(63, 9, 21, 0xEB86D391)
  {
  }

  lemma Turn1(r: Regs, m: Words, i: nat, k: nat, a: bv32, b: bv32, c: bv32, d: bv32, x: bv32, s: bv32, t: bv32,
              n: bv32)
    requires 0 <= i < 16 && Entry(i, k, s, t) && k < 16 && m[k] == Word(x) && Steps(r, m, i) == R(a, b, c, d)
    requires 0 < s < 32 && Operation(F(Word(b), Word(c), Word(d)), Word(a), Word(b), Word(x), s, Word(t)) == Word(n)
    ensures Steps(r, m, i + 1) == R(d, n, b, c)
  {
    hide T, Amount, Index, Operation, F, G, H, I;
  }

  lemma Turn2(r: Regs, m: Words, i: nat, k: nat, a: bv32, b: bv32, c: bv32, d: bv32, x: bv32, s: bv32, t: bv32,
              n: bv32)
    requires 16 <= i < 32 && Entry(i, k, s, t) && k < 16 && m[k] == Word(x) && Steps(r, m, i) == R(a, b, c, d)
    requires 0 < s < 32 && Operation(G(Word(b), Word(c), Word(d)), Word(a), Word(b), Word(x), s, Word(t)) == Word(n)
    ensures Steps(r, m, i + 1) == R(d, n, b, c)
  {
    hide T, Amount, Index, Operation, F, G, H, I;
  }

  lemma Turn3(r: Regs, m: Words, i: nat, k: nat, a: bv32, b: bv32, c: bv32, d: bv32, x: bv32, s: bv32, t: bv32,
              n: bv32)
    requires 32 <= i < 48 && Entry(i, k, s, t) && k < 16 && m[k] == Word(x) && Steps(r, m, i) == R(a, b, c, d)
    requires 0 < s < 32 && Operation(H(Word(b), Word(c), Word(d)), Word(a), Word(b), Word(x), s, Word(t)) == Word(n)
    ensures Steps(r, m, i + 1) == R(d, n, b, c)
  {
    hide T, Amount, Index, Operation, F, G, H, I;
  }

  lemma Turn4(r: Regs, m: Words, i: nat, k: nat, a: bv32, b: bv32, c: bv32, d: bv32, x: bv32, s: bv32, t: bv32,
              n: bv32)
    requires 48 <= i < 64 && Entry(i, k, s, t) && k < 16 && m[k] == Word(x) && Steps(r, m, i) == R(a, b, c, d)
    requires 0 < s < 32 && Operation(I(Word(b), Word(c), Word(d)), Word(a), Word(b), Word(x), s, Word(t)) == Word(n)
    ensures Steps(r, m, i + 1) == R(d, n, b, c)
  {
    hide T, Amount, Index, Operation, F, G, H, I;
  }

  lemma NoSteps(r: Regs, m: Words)
    ensures Steps(r, m, 0) == r
  {
  }

  lemma Summed(r: Regs, block: Block, m: Words, a: bv32, b: bv32, c: bv32, d: bv32, e: bv32, f: bv32,
               g: bv32, h: bv32)
    requires m == WordsOf(block) && Steps(r, m, 64) == R(e, f, g, h) && r == R(a, b, c, d)
    ensures Compress(r, block) == R(a + e, b + f, c + g, d + h)
  {
    hide Steps;
  }

  // ------------------------------------------------------------------ the empty message

  /** The words of its block. */
  predicate IsEmpty(m: Words) {
    m[0] == Word(0x00000080) && m[1] == Word(0x00000000) && m[2] == Word(0x00000000) && m[3] == Word(0x00000000)
    && m[4] == Word(0x00000000) && m[5] == Word(0x00000000) && m[6] == Word(0x00000000) && m[7] == Word(0x00000000)
    && m[8] == Word(0x00000000) && m[9] == Word(0x00000000) && m[10] == Word(0x00000000) && m[11] == Word(0x00000000)
    && m[12] == Word(0x00000000) && m[13] == Word(0x00000000) && m[14] == Word(0x00000000) && m[15] == Word(0x00000000)
  }

  lemma EmptyRound1(m: Words)
    requires IsEmpty(m)
    ensures Steps(R(0x67452301, 0xEFCDAB89, 0x98BADCFE, 0x10325476), m, 16) ==
      R(0xF56C7CF1, 0xD6819C6A, 0x5AA53F75, 0x374943A7)
  {
    hide Steps, Entry, T, Index, Amount, R;
    var r := R(0x67452301, 0xEFCDAB89, 0x98BADCFE, 0x10325476);
    Row0();
    Row4();
    Row8();
    Row12();
    NoSteps(r, m);
    Turn1(r, m, 0, 0, 0x67452301, 0xEFCDAB89, 0x98BADCFE, 0x10325476, 0x00000080, 7, 0xD76AA478, 0xA5202774);
    Turn1(r, m, 1, 1, 0x10325476, 0xA5202774, 0xEFCDAB89, 0x98BADCFE, 0x00000000, 12, 0xE8C7B756, 0xF59592DD);
    Turn1(r, m, 2, 2, 0x98BADCFE, 0xF59592DD, 0xA5202774, 0xEFCDAB89, 0x00000000, 17, 0x242070DB, 0xE7F06B23);
    Turn1(r, m, 3, 3, 0xEFCDAB89, 0xE7F06B23, 0xF59592DD, 0xA5202774, 0x00000000, 22, 0xC1BDCEEE, 0x1B163203);
    Turn1(r, m, 4, 4, 0xA5202774, 0x1B163203, 0xE7F06B23, 0xF59592DD, 0x00000000, 7, 0xF57C0FAF, 0x32033344);
    Turn1(r, m, 5, 5, 0xF59592DD, 0x32033344, 0x1B163203, 0xE7F06B23, 0x00000000, 12, 0x4787C62A, 0x2F35D494);
    Turn1(r, m, 6, 6, 0xE7F06B23, 0x2F35D494, 0x32033344, 0x1B163203, 0x00000000, 17, 0xA8304613, 0xF5B158DB);
    Turn1(r, m, 7, 7, 0x1B163203, 0xF5B158DB, 0x2F35D494, 0x32033344, 0x00000000, 22, 0xFD469501, 0x9BC13CE9);
    Turn1(r, m, 8, 8, 0x32033344, 0x9BC13CE9, 0xF5B158DB, 0x2F35D494, 0x00000000, 7, 0x698098D8, 0x3893B991);
    Turn1(r, m, 9, 9, 0x2F35D494, 0x3893B991, 0x9BC13CE9, 0xF5B158DB, 0x00000000, 12, 0x8B44F7AF, 0xFCE4A312);
    Turn1(r, m, 10, 10, 0xF5B158DB, 0xFCE4A312, 0x3893B991, 0x9BC13CE9, 0x00000000, 17, 0xFFFF5BB1, 0xE1EF0576);
    Turn1(r, m, 11, 11, 0x9BC13CE9, 0xE1EF0576, 0xFCE4A312, 0x3893B991, 0x00000000, 22, 0x895CD7BE, 0x70768A29);
    Turn1(r, m, 12, 12, 0x3893B991, 0x70768A29, 0xE1EF0576, 0xFCE4A312, 0x00000000, 7, 0x6B901122, 0xF56C7CF1);
    Turn1(r, m, 13, 13, 0xFCE4A312, 0xF56C7CF1, 0x70768A29, 0xE1EF0576, 0x00000000, 12, 0xFD987193, 0x374943A7);
    Turn1(r, m, 14, 14, 0xE1EF0576, 0x374943A7, 0xF56C7CF1, 0x70768A29, 0x00000000, 17, 0xA679438E, 0x5AA53F75);
    Turn1(r, m, 15, 15, 0x70768A29, 0x5AA53F75, 0x374943A7, 0xF56C7CF1, 0x00000000, 22, 0x49B40821, 0xD6819C6A);
  }

  lemma EmptyRound2(m: Words)
    requires IsEmpty(m)
    ensures Steps(R(0x67452301, 0xEFCDAB89, 0x98BADCFE, 0x10325476), m, 32) ==
      R(0x13707036, 0xA2205F1F, 0x1C31C384, 0xAE7813DB)
  {
    hide Steps, Entry, T, Index, Amount, R;
    var r := R(0x67452301, 0xEFCDAB89, 0x98BADCFE, 0x10325476);
    Row16();
    Row20();
    Row24();
    Row28();
    EmptyRound1(m);
    Turn2(r, m, 16, 1, 0xF56C7CF1, 0xD6819C6A, 0x5AA53F75, 0x374943A7, 0x00000000, 5, 0xF61E2562, 0x1C7D7513);
    Turn2(r, m, 17, 6, 0x374943A7, 0x1C7D7513, 0xD6819C6A, 0x5AA53F75, 0x00000000, 9, 0xC040B340, 0x7BD57A3A);
    Turn2(r, m, 18, 11, 0x5AA53F75, 0x7BD57A3A, 0x1C7D7513, 0xD6819C6A, 0x00000000, 14, 0x265E5A51, 0xC095F13A);
    Turn2(r, m, 19, 0, 0xD6819C6A, 0xC095F13A, 0x7BD57A3A, 0x1C7D7513, 0x00000080, 20, 0xE9B6C7AA, 0xBD782E17);
    Turn2(r, m, 20, 5, 0x1C7D7513, 0xBD782E17, 0xC095F13A, 0x7BD57A3A, 0x00000000, 5, 0xD62F105D, 0x3D1E3E6C);
    Turn2(r, m, 21, 10, 0x7BD57A3A, 0x3D1E3E6C, 0xBD782E17, 0xC095F13A, 0x00000000, 9, 0x02441453, 0x68B7B3E3);
    Turn2(r, m, 22, 15, 0xC095F13A, 0x68B7B3E3, 0x3D1E3E6C, 0xBD782E17, 0x00000000, 14, 0xD8A1E681, 0xEB41643E);
    Turn2(r, m, 23, 4, 0xBD782E17, 0xEB41643E, 0x68B7B3E3, 0x3D1E3E6C, 0x00000000, 20, 0xE7D3FBC8, 0xE422531A);
    Turn2(r, m, 24, 9, 0x3D1E3E6C, 0xE422531A, 0xEB41643E, 0x68B7B3E3, 0x00000000, 5, 0x21E1CDE6, 0x306EC122);
    Turn2(r, m, 25, 14, 0x68B7B3E3, 0x306EC122, 0xE422531A, 0xEB41643E, 0x00000000, 9, 0xC33707D6, 0xD28C77C2);
    Turn2(r, m, 26, 3, 0xEB41643E, 0xD28C77C2, 0x306EC122, 0xE422531A, 0x00000000, 14, 0xF4D50D87, 0xA3C663DA);
    Turn2(r, m, 27, 8, 0xE422531A, 0xA3C663DA, 0xD28C77C2, 0x306EC122, 0x00000000, 20, 0x455A14ED, 0xA0572807);
    Turn2(r, m, 28, 13, 0x306EC122, 0xA0572807, 0xA3C663DA, 0xD28C77C2, 0x00000000, 5, 0xA9E3E905, 0x13707036);
    Turn2(r, m, 29, 2, 0xD28C77C2, 0x13707036, 0xA0572807, 0xA3C663DA, 0x00000000, 9, 0xFCEFA3F8, 0xAE7813DB);
    Turn2(r, m, 30, 7, 0xA3C663DA, 0xAE7813DB, 0x13707036, 0xA0572807, 0x00000000, 14, 0x676F02D9, 0x1C31C384);
    Turn2(r, m, 31, 12, 0xA0572807, 0x1C31C384, 0xAE7813DB, 0x13707036, 0x00000000, 20, 0x8D2A4C8A, 0xA2205F1F);
  }

  lemma EmptyRound3(m: Words)
    requires IsEmpty(m)
    ensures Steps(R(0x67452301, 0xEFCDAB89, 0x98BADCFE, 0x10325476), m, 48) ==
      R(0x3F55EDFD, 0xCA7D2DBD, 0x68D84EA2, 0x22A31F54)
  {
    hide Steps, Entry, T, Index, Amount, R;
    var r := R(0x67452301, 0xEFCDAB89, 0x98BADCFE, 0x10325476);
    Row32();
    Row36();
    Row40();
    Row44();
    EmptyRound2(m);
    Turn3(r, m, 32, 5, 0x13707036, 0xA2205F1F, 0x1C31C384, 0xAE7813DB, 0x00000000, 4, 0xFFFA3942, 0xDF63EAA1);
    Turn3(r, m, 33, 8, 0xAE7813DB, 0xDF63EAA1, 0xA2205F1F, 0x1C31C384, 0x00000000, 11, 0x8771F681, 0xC3689F5B);
    Turn3(r, m, 34, 11, 0x1C31C384, 0xC3689F5B, 0xDF63EAA1, 0xA2205F1F, 0x00000000, 16, 0x6D9D6122, 0x12F3E755);
    Turn3(r, m, 35, 14, 0xA2205F1F, 0x12F3E755, 0xC3689F5B, 0xDF63EAA1, 0x00000000, 23, 0xFDE5380C, 0x004B6669);
    Turn3(r, m, 36, 1, 0xDF63EAA1, 0x004B6669, 0x12F3E755, 0xC3689F5B, 0x00000000, 4, 0xA4BEEA44, 0x5F7A9B2E);
    Turn3(r, m, 37, 4, 0xC3689F5B, 0x5F7A9B2E, 0x004B6669, 0x12F3E755, 0x00000000, 11, 0x4BDECFA9, 0xABC34E16);
    Turn3(r, m, 38, 7, 0x12F3E755, 0xABC34E16, 0x5F7A9B2E, 0x004B6669, 0x00000000, 16, 0xF6BB4B60, 0x91CA4CB7);
    Turn3(r, m, 39, 10, 0x004B6669, 0x91CA4CB7, 0xABC34E16, 0x5F7A9B2E, 0x00000000, 23, 0xBEBFBC70, 0xC5DC8C15);
    Turn3(r, m, 40, 13, 0x5F7A9B2E, 0xC5DC8C15, 0x91CA4CB7, 0xABC34E16, 0x00000000, 4, 0x289B7EC6, 0x4497169D);
    Turn3(r, m, 41, 0, 0xABC34E16, 0x4497169D, 0xC5DC8C15, 0x91CA4CB7, 0x00000080, 11, 0xEAA127FA, 0x76FD93D4);
    Turn3(r, m, 42, 3, 0x91CA4CB7, 0x76FD93D4, 0x4497169D, 0xC5DC8C15, 0x00000000, 16, 0xD4EF3085, 0xFD95F243);
    Turn3(r, m, 43, 6, 0xC5DC8C15, 0xFD95F243, 0x76FD93D4, 0x4497169D, 0x00000000, 23, 0x04881D05, 0x0FE32453);
    Turn3(r, m, 44, 9, 0x4497169D, 0x0FE32453, 0xFD95F243, 0x76FD93D4, 0x00000000, 4, 0xD9D4D039, 0x3F55EDFD);
    Turn3(r, m, 45, 12, 0x76FD93D4, 0x3F55EDFD, 0x0FE32453, 0xFD95F243, 0x00000000, 11, 0xE6DB99E5, 0x22A31F54);
    Turn3(r, m, 46, 15, 0xFD95F243, 0x22A31F54, 0x3F55EDFD, 0x0FE32453, 0x00000000, 16, 0x1FA27CF8, 0x68D84EA2);
    Turn3(r, m, 47, 2, 0x0FE32453, 0x68D84EA2, 0x22A31F54, 0x3F55EDFD, 0x00000000, 23, 0xC4AC5665, 0xCA7D2DBD);
  }

  lemma EmptyRound4(m: Words)
    requires IsEmpty(m)
    ensures Steps(R(0x67452301, 0xEFCDAB89, 0x98BADCFE, 0x10325476), m, 64) ==
      R(0x7246FAD3, 0x14E45506, 0xFF4EA3EB, 0x6E10A476)
  {
    hide Steps, Entry, T, Index, Amount, R;
    var r := R(0x67452301, 0xEFCDAB89, 0x98BADCFE, 0x10325476);
    Row48();
    Row52();
    Row56();
    Row60();
    EmptyRound3(m);
    Turn4(r, m, 48, 0, 0x3F55EDFD, 0xCA7D2DBD, 0x68D84EA2, 0x22A31F54, 0x00000080, 6, 0xF4292244, 0x93AA2577);
    Turn4(r, m, 49, 7, 0x22A31F54, 0x93AA2577, 0xCA7D2DBD, 0x68D84EA2, 0x00000000, 10, 0x432AFF97, 0x1688DC85);
    Turn4(r, m, 50, 14, 0x68D84EA2, 0x1688DC85, 0x93AA2577, 0xCA7D2DBD, 0x00000000, 15, 0xAB9423A7, 0xCD85B8CB);
    Turn4(r, m, 51, 5, 0xCA7D2DBD, 0xCD85B8CB, 0x1688DC85, 0x93AA2577, 0x00000000, 21, 0xFC93A039, 0x561E0689);
    Turn4(r, m, 52, 12, 0x93AA2577, 0x561E0689, 0xCD85B8CB, 0x1688DC85, 0x00000000, 6, 0x655B59C3, 0x5625A114);
    Turn4(r, m, 53, 3, 0x1688DC85, 0x5625A114, 0x561E0689, 0xCD85B8CB, 0x00000000, 10, 0x8F0CCC92, 0x3450F42B);
    Turn4(r, m, 54, 10, 0xCD85B8CB, 0x3450F42B, 0x5625A114, 0x561E0689, 0x00000000, 15, 0xFFEFF47D, 0x392AD0D0);
    Turn4(r, m, 55, 1, 0x561E0689, 0x392AD0D0, 0x3450F42B, 0x5625A114, 0x00000000, 21, 0x85845DD1, 0x1E77FA61);
    Turn4(r, m, 56, 8, 0x5625A114, 0x1E77FA61, 0x392AD0D0, 0x3450F42B, 0x00000000, 6, 0x6FA87E4F, 0x474A9C8C);
    Turn4(r, m, 57, 15, 0x3450F42B, 0x474A9C8C, 0x1E77FA61, 0x392AD0D0, 0x00000000, 10, 0xFE2CE6E0, 0xDFCE00BC);
    Turn4(r, m, 58, 6, 0x392AD0D0, 0xDFCE00BC, 0x474A9C8C, 0x1E77FA61, 0x00000000, 15, 0xA3014314, 0x36594B14);
    Turn4(r, m, 59, 13, 0x1E77FA61, 0x36594B14, 0xDFCE00BC, 0x474A9C8C, 0x00000000, 21, 0x4E0811A1, 0x30130182);
    Turn4(r, m, 60, 4, 0x474A9C8C, 0x30130182, 0x36594B14, 0xDFCE00BC, 0x00000000, 6, 0xF7537E82, 0x7246FAD3);
    Turn4(r, m, 61, 11, 0xDFCE00BC, 0x7246FAD3, 0x30130182, 0x36594B14, 0x00000000, 10, 0xBD3AF235, 0x6E10A476);
    Turn4(r, m, 62, 2, 0x36594B14, 0x6E10A476, 0x7246FAD3, 0x30130182, 0x00000000, 15, 0x2AD7D2BB, 0xFF4EA3EB);
    Turn4(r, m, 63, 9, 0x30130182, 0xFF4EA3EB, 0x6E10A476, 0x7246FAD3, 0x00000000, 21, 0xEB86D391, 0x14E45506);
  }

  // ------------------------------------------------------------------ "abc"

  /** The words of its block. */
  predicate IsAbc(m: Words) {
    m[0] == Word(0x80636261) && m[1] == Word(0x00000000) && m[2] == Word(0x00000000) && m[3] == Word(0x00000000)
    && m[4] == Word(0x00000000) && m[5] == Word(0x00000000) && m[6] == Word(0x00000000) && m[7] == Word(0x00000000)
    && m[8] == Word(0x00000000) && m[9] == Word(0x00000000) && m[10] == Word(0x00000000) && m[11] == Word(0x00000000)
    && m[12] == Word(0x00000000) && m[13] == Word(0x00000000) && m[14] == Word(0x00000018) && m[15] == Word(0x00000000)
  }

  lemma AbcRound1(m: Words)
    requires IsAbc(m)
    ensures Steps(R(0x67452301, 0xEFCDAB89, 0x98BADCFE, 0x10325476), m, 16) ==
      R(0xDDA9B9A6, 0x72AFF2E0, 0xE396856B, 0xA1051895)
  {
    hide Steps, Entry, T, Index, Amount, R;
    var r := R(0x67452301, 0xEFCDAB89, 0x98BADCFE, 0x10325476);
    Row0();
    Row4();
    Row8();
    Row12();
    NoSteps(r, m);
    Turn1(r, m, 0, 0, 0x67452301, 0xEFCDAB89, 0x98BADCFE, 0x10325476, 0x80636261, 7, 0xD76AA478, 0xD6D117B4);
    Turn1(r, m, 1, 1, 0x10325476, 0xD6D117B4, 0xEFCDAB89, 0x98BADCFE, 0x00000000, 12, 0xE8C7B756, 0x344A8432);
    Turn1(r, m, 2, 2, 0x98BADCFE, 0x344A8432, 0xD6D117B4, 0xEFCDAB89, 0x00000000, 17, 0x242070DB, 0x2F6FBD72);
    Turn1(r, m, 3, 3, 0xEFCDAB89, 0x2F6FBD72, 0x344A8432, 0xD6D117B4, 0x00000000, 22, 0xC1BDCEEE, 0x7AD956F2);
    Turn1(r, m, 4, 4, 0xD6D117B4, 0x7AD956F2, 0x2F6FBD72, 0x344A8432, 0x00000000, 7, 0xF57C0FAF, 0xC73741EF);
    Turn1(r, m, 5, 5, 0x344A8432, 0xC73741EF, 0x7AD956F2, 0x2F6FBD72, 0x00000000, 12, 0x4787C62A, 0x8BAC3051);
    Turn1(r, m, 6, 6, 0x2F6FBD72, 0x8BAC3051, 0xC73741EF, 0x7AD956F2, 0x00000000, 17, 0xA8304613, 0x207DC67B);
    Turn1(r, m, 7, 7, 0x7AD956F2, 0x207DC67B, 0x8BAC3051, 0xC73741EF, 0x00000000, 22, 0xFD469501, 0x928D99F6);
    Turn1(r, m, 8, 8, 0xC73741EF, 0x928D99F6, 0x207DC67B, 0x8BAC3051, 0x00000000, 7, 0x698098D8, 0x854B3712);
    Turn1(r, m, 9, 9, 0x8BAC3051, 0x854B3712, 0x928D99F6, 0x207DC67B, 0x00000000, 12, 0x8B44F7AF, 0x74E2F284);
    Turn1(r, m, 10, 10, 0x207DC67B, 0x74E2F284, 0x854B3712, 0x928D99F6, 0x00000000, 17, 0xFFFF5BB1, 0x3020401C);
    Turn1(r, m, 11, 11, 0x928D99F6, 0x3020401C, 0x74E2F284, 0x854B3712, 0x00000000, 22, 0x895CD7BE, 0x5ED49596);
    Turn1(r, m, 12, 12, 0x854B3712, 0x5ED49596, 0x3020401C, 0x74E2F284, 0x00000000, 7, 0x6B901122, 0xDDA9B9A6);
    Turn1(r, m, 13, 13, 0x74E2F284, 0xDDA9B9A6, 0x5ED49596, 0x3020401C, 0x00000000, 12, 0xFD987193, 0xA1051895);
    Turn1(r, m, 14, 14, 0x3020401C, 0xA1051895, 0xDDA9B9A6, 0x5ED49596, 0x00000018, 17, 0xA679438E, 0xE396856B);
    Turn1(r, m, 15, 15, 0x5ED49596, 0xE396856B, 0xA1051895, 0xDDA9B9A6, 0x00000000, 22, 0x49B40821, 0x72AFF2E0);
  }

  lemma AbcRound2(m: Words)
    requires IsAbc(m)
    ensures Steps(R(0x67452301, 0xEFCDAB89, 0x98BADCFE, 0x10325476), m, 32) ==
      R(0x790A77FB, 0x726342D3, 0xA62884AA, 0x9F47E4F8)
  {
    hide Steps, Entry, T, Index, Amount, R;
    var r := R(0x67452301, 0xEFCDAB89, 0x98BADCFE, 0x10325476);
    Row16();
    Row20();
    Row24();
    Row28();
    AbcRound1(m);
    Turn2(r, m, 16, 1, 0xDDA9B9A6, 0x72AFF2E0, 0xE396856B, 0xA1051895, 0x00000000, 5, 0xF61E2562, 0x3E9E9126);
    Turn2(r, m, 17, 6, 0xA1051895, 0x3E9E9126, 0x72AFF2E0, 0xE396856B, 0x00000000, 9, 0xC040B340, 0x4A1D804E);
    Turn2(r, m, 18, 11, 0xE396856B, 0x4A1D804E, 0x3E9E9126, 0x72AFF2E0, 0x00000000, 14, 0x265E5A51, 0xE25E1652);
    Turn2(r, m, 19, 0, 0x72AFF2E0, 0xE25E1652, 0x4A1D804E, 0x3E9E9126, 0x80636261, 20, 0xE9B6C7AA, 0xB5B204E4);
    Turn2(r, m, 20, 5, 0x3E9E9126, 0xB5B204E4, 0xE25E1652, 0x4A1D804E, 0x00000000, 5, 0xD62F105D, 0x59A8FFDA);
    Turn2(r, m, 21, 10, 0x4A1D804E, 0x59A8FFDA, 0xB5B204E4, 0xE25E1652, 0x00000000, 9, 0x02441453, 0x6D002F1E);
    Turn2(r, m, 22, 15, 0xE25E1652, 0x6D002F1E, 0x59A8FFDA, 0xB5B204E4, 0x00000000, 14, 0xD8A1E681, 0xABFC7920);
    Turn2(r, m, 23, 4, 0xB5B204E4, 0xABFC7920, 0x6D002F1E, 0x59A8FFDA, 0x00000000, 20, 0xE7D3FBC8, 0x47092C07);
    Turn2(r, m, 24, 9, 0x59A8FFDA, 0x47092C07, 0xABFC7920, 0x6D002F1E, 0x00000000, 5, 0x21E1CDE6, 0xB7F268CF);
    Turn2(r, m, 25, 14, 0x6D002F1E, 0xB7F268CF, 0x47092C07, 0xABFC7920, 0x00000018, 9, 0xC33707D6, 0x09388EFF);
    Turn2(r, m, 26, 3, 0xABFC7920, 0x09388EFF, 0xB7F268CF, 0x47092C07, 0x00000000, 14, 0xF4D50D87, 0xFE1623B1);
    Turn2(r, m, 27, 8, 0x47092C07, 0xFE1623B1, 0x09388EFF, 0xB7F268CF, 0x00000000, 20, 0x455A14ED, 0x786ACB8F);
    Turn2(r, m, 28, 13, 0xB7F268CF, 0x786ACB8F, 0xFE1623B1, 0x09388EFF, 0x00000000, 5, 0xA9E3E905, 0x790A77FB);
    Turn2(r, m, 29, 2, 0x09388EFF, 0x790A77FB, 0x786ACB8F, 0xFE1623B1, 0x00000000, 9, 0xFCEFA3F8, 0x9F47E4F8);
    Turn2(r, m, 30, 7, 0xFE1623B1, 0x9F47E4F8, 0x790A77FB, 0x786ACB8F, 0x00000000, 14, 0x676F02D9, 0xA62884AA);
    Turn2(r, m, 31, 12, 0x786ACB8F, 0xA62884AA, 0x9F47E4F8, 0x790A77FB, 0x00000000, 20, 0x8D2A4C8A, 0x726342D3);
  }

  lemma AbcRound3(m: Words)
    requires IsAbc(m)
    ensures Steps(R(0x67452301, 0xEFCDAB89, 0x98BADCFE, 0x10325476), m, 48) ==
      R(0x7F2E507B, 0x7BEB9700, 0x8FAE6399, 0x99D9679D)
  {
    hide Steps, Entry, T, Index, Amount, R;
    var r := R(0x67452301, 0xEFCDAB89, 0x98BADCFE, 0x10325476);
    Row32();
    Row36();
    Row40();
    Row44();
    AbcRound2(m);
    Turn3(r, m, 32, 5, 0x790A77FB, 0x726342D3, 0xA62884AA, 0x9F47E4F8, 0x00000000, 4, 0xFFFA3942, 0xB3707EBF);
    Turn3(r, m, 33, 8, 0x9F47E4F8, 0xB3707EBF, 0x726342D3, 0xA62884AA, 0x00000000, 11, 0x8771F681, 0x60127B2E);
    Turn3(r, m, 34, 11, 0xA62884AA, 0x60127B2E, 0xB3707EBF, 0x726342D3, 0x00000000, 16, 0x6D9D6122, 0x8D212FF5);
    Turn3(r, m, 35, 14, 0x726342D3, 0x8D212FF5, 0x60127B2E, 0xB3707EBF, 0x00000018, 23, 0xFDE5380C, 0x3B0875C7);
    Turn3(r, m, 36, 1, 0xB3707EBF, 0x3B0875C7, 0x8D212FF5, 0x60127B2E, 0x00000000, 4, 0xA4BEEA44, 0x21B117B9);
    Turn3(r, m, 37, 4, 0x60127B2E, 0x21B117B9, 0x3B0875C7, 0x8D212FF5, 0x00000000, 11, 0x4BDECFA9, 0x6E7429D5);
    Turn3(r, m, 38, 7, 0x8D212FF5, 0x6E7429D5, 0x21B117B9, 0x3B0875C7, 0x00000000, 16, 0xF6BB4B60, 0x3575227E);
    Turn3(r, m, 39, 10, 0x3B0875C7, 0x3575227E, 0x6E7429D5, 0x21B117B9, 0x00000000, 23, 0xBEBFBC70, 0x5A2F5EA5);
    Turn3(r, m, 40, 13, 0x21B117B9, 0x5A2F5EA5, 0x3575227E, 0x6E7429D5, 0x00000000, 4, 0x289B7EC6, 0x11DE1779);
    Turn3(r, m, 41, 0, 0x6E7429D5, 0x11DE1779, 0x5A2F5EA5, 0x3575227E, 0x80636261, 11, 0xEAA127FA, 0xFADCAA38);
    Turn3(r, m, 42, 3, 0x3575227E, 0xFADCAA38, 0x11DE1779, 0x5A2F5EA5, 0x00000000, 16, 0xD4EF3085, 0x31C465CA);
    Turn3(r, m, 43, 6, 0x5A2F5EA5, 0x31C465CA, 0xFADCAA38, 0x11DE1779, 0x00000000, 23, 0x04881D05, 0x4C6124F4);
    Turn3(r, m, 44, 9, 0x11DE1779, 0x4C6124F4, 0x31C465CA, 0xFADCAA38, 0x00000000, 4, 0xD9D4D039, 0x7F2E507B);
    Turn3(r, m, 45, 12, 0xFADCAA38, 0x7F2E507B, 0x4C6124F4, 0x31C465CA, 0x00000000, 11, 0xE6DB99E5, 0x99D9679D);
    Turn3(r, m, 46, 15, 0x31C465CA, 0x99D9679D, 0x7F2E507B, 0x4C6124F4, 0x00000000, 16, 0x1FA27CF8, 0x8FAE6399);
    Turn3(r, m, 47, 2, 0x4C6124F4, 0x8FAE6399, 0x99D9679D, 0x7F2E507B, 0x00000000, 23, 0xC4AC5665, 0x7BEB9700);
  }

  lemma AbcRound4(m: Words)
    requires IsAbc(m)
    ensures Steps(R(0x67452301, 0xEFCDAB89, 0x98BADCFE, 0x10325476), m, 64) ==
      R(0x310ADE8F, 0xC08226B3, 0xE484B9D8, 0x624D8CB2)
  {
    hide Steps, Entry, T, Index, Amount, R;
    var r := R(0x67452301, 0xEFCDAB89, 0x98BADCFE, 0x10325476);
    Row48();
    Row52();
    Row56();
    Row60();
    AbcRound3(m);
    Turn4(r, m, 48, 0, 0x7F2E507B, 0x7BEB9700, 0x8FAE6399, 0x99D9679D, 0x80636261, 6, 0xF4292244, 0x7B201DF8);
    Turn4(r, m, 49, 7, 0x99D9679D, 0x7B201DF8, 0x7BEB9700, 0x8FAE6399, 0x00000000, 10, 0x432AFF97, 0xF4E8E96E);
    Turn4(r, m, 50, 14, 0x8FAE6399, 0xF4E8E96E, 0x7B201DF8, 0x7BEB9700, 0x00000018, 15, 0xAB9423A7, 0xB298CEFD);
    Turn4(r, m, 51, 5, 0x7BEB9700, 0xB298CEFD, 0xF4E8E96E, 0x7B201DF8, 0x00000000, 21, 0xFC93A039, 0x8BF025C4);
    Turn4(r, m, 52, 12, 0x7B201DF8, 0x8BF025C4, 0xB298CEFD, 0xF4E8E96E, 0x00000000, 6, 0x655B59C3, 0x06CC5E8A);
    Turn4(r, m, 53, 3, 0xF4E8E96E, 0x06CC5E8A, 0x8BF025C4, 0xB298CEFD, 0x00000000, 10, 0x8F0CCC92, 0x5B0D97AA);
    Turn4(r, m, 54, 10, 0xB298CEFD, 0x5B0D97AA, 0x06CC5E8A, 0x8BF025C4, 0x00000000, 15, 0xFFEFF47D, 0x7D632DD0);
    Turn4(r, m, 55, 1, 0x8BF025C4, 0x7D632DD0, 0x5B0D97AA, 0x06CC5E8A, 0x00000000, 21, 0x85845DD1, 0x3BFA2C27);
    Turn4(r, m, 56, 8, 0x06CC5E8A, 0x3BFA2C27, 0x7D632DD0, 0x5B0D97AA, 0x00000000, 6, 0x6FA87E4F, 0x7F81CC35);
    Turn4(r, m, 57, 15, 0x5B0D97AA, 0x7F81CC35, 0x3BFA2C27, 0x7D632DD0, 0x00000000, 10, 0xFE2CE6E0, 0x094454AB);
    Turn4(r, m, 58, 6, 0x7D632DD0, 0x094454AB, 0x7F81CC35, 0x3BFA2C27, 0x00000000, 15, 0xA3014314, 0x4F9DBE3F);
    Turn4(r, m, 59, 13, 0x3BFA2C27, 0x4F9DBE3F, 0x094454AB, 0x7F81CC35, 0x00000000, 21, 0x4E0811A1, 0x7327D604);
    Turn4(r, m, 60, 4, 0x7F81CC35, 0x7327D604, 0x4F9DBE3F, 0x094454AB, 0x00000000, 6, 0xF7537E82, 0x310ADE8F);
    Turn4(r, m, 61, 11, 0x094454AB, 0x310ADE8F, 0x7327D604, 0x4F9DBE3F, 0x00000000, 10, 0xBD3AF235, 0x624D8CB2);
    Turn4(r, m, 62, 2, 0x4F9DBE3F, 0x624D8CB2, 0x310ADE8F, 0x7327D604, 0x00000000, 15, 0x2AD7D2BB, 0xE484B9D8);
    Turn4(r, m, 63, 9, 0x7327D604, 0xE484B9D8, 0x624D8CB2, 0x310ADE8F, 0x00000000, 21, 0xEB86D391, 0xC08226B3);
  }

  // ------------------------------------------------------------------ the letters and digits

  /** The words of its first block. */
  predicate IsAlnumFirst(m: Words) {
    m[0] == Word(0x44434241) && m[1] == Word(0x48474645) && m[2] == Word(0x4C4B4A49) && m[3] == Word(0x504F4E4D)
    && m[4] == Word(0x54535251) && m[5] == Word(0x58575655) && m[6] == Word(0x62615A59) && m[7] == Word(0x66656463)
    && m[8] == Word(0x6A696867) && m[9] == Word(0x6E6D6C6B) && m[10] == Word(0x7271706F) && m[11] == Word(0x76757473)
    && m[12] == Word(0x7A797877) && m[13] == Word(0x33323130) && m[14] == Word(0x37363534) && m[15] == Word(0x00803938)
  }

  lemma AlnumFirstRound1(m: Words)
    requires IsAlnumFirst(m)
    ensures Steps(R(0x67452301, 0xEFCDAB89, 0x98BADCFE, 0x10325476), m, 16) ==
      R(0x3CBDCD45, 0x5D38E690, 0xFA148C8A, 0xB8DEC763)
  {
    hide Steps, Entry, T, Index, Amount, R;
    var r := R(0x67452301, 0xEFCDAB89, 0x98BADCFE, 0x10325476);
    Row0();
    Row4();
    Row8();
    Row12();
    NoSteps(r, m);
    Turn1(r, m, 0, 0, 0x67452301, 0xEFCDAB89, 0x98BADCFE, 0x10325476, 0x44434241, 7, 0xD76AA478, 0xC6C10796);
    Turn1(r, m, 1, 1, 0x10325476, 0xC6C10796, 0xEFCDAB89, 0x98BADCFE, 0x48474645, 12, 0xE8C7B756, 0x99A09999);
    Turn1(r, m, 2, 2, 0x98BADCFE, 0x99A09999, 0xC6C10796, 0xEFCDAB89, 0x4C4B4A49, 17, 0x242070DB, 0x11067980);
    Turn1(r, m, 3, 3, 0xEFCDAB89, 0x11067980, 0x99A09999, 0xC6C10796, 0x504F4E4D, 22, 0xC1BDCEEE, 0x27BCE07A);
    Turn1(r, m, 4, 4, 0xC6C10796, 0x27BCE07A, 0x11067980, 0x99A09999, 0x54535251, 7, 0xF57C0FAF, 0xF22E6C4E);
    Turn1(r, m, 5, 5, 0x99A09999, 0xF22E6C4E, 0x27BCE07A, 0x11067980, 0x58575655, 12, 0x4787C62A, 0xB4AC9218);
    Turn1(r, m, 6, 6, 0x11067980, 0xB4AC9218, 0xF22E6C4E, 0x27BCE07A, 0x62615A59, 17, 0xA8304613, 0xA95A2FC0);
    Turn1(r, m, 7, 7, 0x27BCE07A, 0xA95A2FC0, 0xB4AC9218, 0xF22E6C4E, 0x66656463, 22, 0xFD469501, 0xA4799506);
    Turn1(r, m, 8, 8, 0xF22E6C4E, 0xA4799506, 0xA95A2FC0, 0xB4AC9218, 0x6A696867, 7, 0x698098D8, 0x1EB3E7C1);
    Turn1(r, m, 9, 9, 0xB4AC9218, 0x1EB3E7C1, 0xA4799506, 0xA95A2FC0, 0x6E6D6C6B, 12, 0x8B44F7AF, 0xA6E70CFE);
    Turn1(r, m, 10, 10, 0xA95A2FC0, 0xA6E70CFE, 0x1EB3E7C1, 0xA4799506, 0x7271706F, 17, 0xFFFF5BB1, 0xCA27520B);
    Turn1(r, m, 11, 11, 0xA4799506, 0xCA27520B, 0xA6E70CFE, 0x1EB3E7C1, 0x76757473, 22, 0x895CD7BE, 0x8A7612EC);
    Turn1(r, m, 12, 12, 0x1EB3E7C1, 0x8A7612EC, 0xCA27520B, 0xA6E70CFE, 0x7A797877, 7, 0x6B901122, 0x3CBDCD45);
    Turn1(r, m, 13, 13, 0xA6E70CFE, 0x3CBDCD45, 0x8A7612EC, 0xCA27520B, 0x33323130, 12, 0xFD987193, 0xB8DEC763);
    Turn1(r, m, 14, 14, 0xCA27520B, 0xB8DEC763, 0x3CBDCD45, 0x8A7612EC, 0x37363534, 17, 0xA679438E, 0xFA148C8A);
    Turn1(r, m, 15, 15, 0x8A7612EC, 0xFA148C8A, 0xB8DEC763, 0x3CBDCD45, 0x00803938, 22, 0x49B40821, 0x5D38E690);
  }

  lemma AlnumFirstRound2(m: Words)
    requires IsAlnumFirst(m)
    ensures Steps(R(0x67452301, 0xEFCDAB89, 0x98BADCFE, 0x10325476), m, 32) ==
      R(0x9B085FA9, 0xDD789ECC, 0x5993248F, 0x4400A9BD)
  {
    hide Steps, Entry, T, Index, Amount, R;
    var r := R(0x67452301, 0xEFCDAB89, 0x98BADCFE, 0x10325476);
    Row16();
    Row20();
    Row24();
    Row28();
    AlnumFirstRound1(m);
    Turn2(r, m, 16, 1, 0x3CBDCD45, 0x5D38E690, 0xFA148C8A, 0xB8DEC763, 0x48474645, 5, 0xF61E2562, 0x04B9D52A);
    Turn2(r, m, 17, 6, 0xB8DEC763, 0x04B9D52A, 0x5D38E690, 0xFA148C8A, 0x62615A59, 9, 0xC040B340, 0x783002EB);
    Turn2(r, m, 18, 11, 0xFA148C8A, 0x783002EB, 0x04B9D52A, 0x5D38E690, 0x76757473, 14, 0x265E5A51, 0xD3EE3ED1);
    Turn2(r, m, 19, 0, 0x5D38E690, 0xD3EE3ED1, 0x783002EB, 0x04B9D52A, 0x44434241, 20, 0xE9B6C7AA, 0x47AE7C81);
    Turn2(r, m, 20, 5, 0x04B9D52A, 0x47AE7C81, 0xD3EE3ED1, 0x783002EB, 0x58575655, 5, 0xD62F105D, 0x2D7D8A3F);
    Turn2(r, m, 21, 10, 0x783002EB, 0x2D7D8A3F, 0x47AE7C81, 0xD3EE3ED1, 0x7271706F, 9, 0x02441453, 0xD1210823);
    Turn2(r, m, 22, 15, 0xD3EE3ED1, 0xD1210823, 0x2D7D8A3F, 0x47AE7C81, 0x00803938, 14, 0xD8A1E681, 0x4B534DC3);
    Turn2(r, m, 23, 4, 0x47AE7C81, 0x4B534DC3, 0xD1210823, 0x2D7D8A3F, 0x54535251, 20, 0xE7D3FBC8, 0x75292030);
    Turn2(r, m, 24, 9, 0x2D7D8A3F, 0x75292030, 0x4B534DC3, 0xD1210823, 0x6E6D6C6B, 5, 0x21E1CDE6, 0x9D2A6E33);
    Turn2(r, m, 25, 14, 0xD1210823, 0x9D2A6E33, 0x75292030, 0x4B534DC3, 0x37363534, 9, 0xC33707D6, 0x0E8D2E44);
    Turn2(r, m, 26, 3, 0x4B534DC3, 0x0E8D2E44, 0x9D2A6E33, 0x75292030, 0x504F4E4D, 14, 0xF4D50D87, 0xD473B564);
    Turn2(r, m, 27, 8, 0x75292030, 0xD473B564, 0x0E8D2E44, 0x9D2A6E33, 0x6A696867, 20, 0x455A14ED, 0xF2FF6EA0);
    Turn2(r, m, 28, 13, 0x9D2A6E33, 0xF2FF6EA0, 0xD473B564, 0x0E8D2E44, 0x33323130, 5, 0xA9E3E905, 0x9B085FA9);
    Turn2(r, m, 29, 2, 0x0E8D2E44, 0x9B085FA9, 0xF2FF6EA0, 0xD473B564, 0x4C4B4A49, 9, 0xFCEFA3F8, 0x4400A9BD);
    Turn2(r, m, 30, 7, 0xD473B564, 0x4400A9BD, 0x9B085FA9, 0xF2FF6EA0, 0x66656463, 14, 0x676F02D9, 0x5993248F);
    Turn2(r, m, 31, 12, 0xF2FF6EA0, 0x5993248F, 0x4400A9BD, 0x9B085FA9, 0x7A797877, 20, 0x8D2A4C8A, 0xDD789ECC);
  }

  lemma AlnumFirstRound3(m: Words)
    requires IsAlnumFirst(m)
    ensures Steps(R(0x67452301, 0xEFCDAB89, 0x98BADCFE, 0x10325476), m, 48) ==
      R(0x2DBEE21D, 0xF166F514, 0xEE46E961, 0xE95C3A43)
  {
    hide Steps, Entry, T, Index, Amount, R;
    var r := R(0x67452301, 0xEFCDAB89, 0x98BADCFE, 0x10325476);
    Row32();
    Row36();
    Row40();
    Row44();
    AlnumFirstRound2(m);
    Turn3(r, m, 32, 5, 0x9B085FA9, 0xDD789ECC, 0x5993248F, 0x4400A9BD, 0x58575655, 4, 0xFFFA3942, 0x21C8D2B7);
    Turn3(r, m, 33, 8, 0x4400A9BD, 0x21C8D2B7, 0xDD789ECC, 0x5993248F, 0x6A696867, 11, 0x8771F681, 0x1D55A18E);
    Turn3(r, m, 34, 11, 0x5993248F, 0x1D55A18E, 0x21C8D2B7, 0xDD789ECC, 0x76757473, 16, 0x6D9D6122, 0x056EC119);
    Turn3(r, m, 35, 14, 0xDD789ECC, 0x056EC119, 0x1D55A18E, 0x21C8D2B7, 0x37363534, 23, 0xFDE5380C, 0x1B9504F8);
    Turn3(r, m, 36, 1, 0x21C8D2B7, 0x1B9504F8, 0x056EC119, 0x1D55A18E, 0x48474645, 4, 0xA4BEEA44, 0x436B7FE9);
    Turn3(r, m, 37, 4, 0x1D55A18E, 0x436B7FE9, 0x1B9504F8, 0x056EC119, 0x54535251, 11, 0x4BDECFA9, 0x075800C1);
    Turn3(r, m, 38, 7, 0x056EC119, 0x075800C1, 0x436B7FE9, 0x1B9504F8, 0x66656463, 16, 0xF6BB4B60, 0xF404C2F6);
    Turn3(r, m, 39, 10, 0x1B9504F8, 0xF404C2F6, 0x075800C1, 0x436B7FE9, 0x7271706F, 23, 0xBEBFBC70, 0xCF0341ED);
    Turn3(r, m, 40, 13, 0x436B7FE9, 0xCF0341ED, 0xF404C2F6, 0x075800C1, 0x33323130, 4, 0x289B7EC6, 0x888E7D8A);
    Turn3(r, m, 41, 0, 0x075800C1, 0x888E7D8A, 0xCF0341ED, 0xF404C2F6, 0x44434241, 11, 0xEAA127FA, 0xBBDAECD8);
    Turn3(r, m, 42, 3, 0xF404C2F6, 0xBBDAECD8, 0x888E7D8A, 0xCF0341ED, 0x504F4E4D, 16, 0xD4EF3085, 0xCE620273);
    Turn3(r, m, 43, 6, 0xCF0341ED, 0xCE620273, 0xBBDAECD8, 0x888E7D8A, 0x62615A59, 23, 0x04881D05, 0x047B9419);
    Turn3(r, m, 44, 9, 0x888E7D8A, 0x047B9419, 0xCE620273, 0xBBDAECD8, 0x6E6D6C6B, 4, 0xD9D4D039, 0x2DBEE21D);
    Turn3(r, m, 45, 12, 0xBBDAECD8, 0x2DBEE21D, 0x047B9419, 0xCE620273, 0x7A797877, 11, 0xE6DB99E5, 0xE95C3A43);
    Turn3(r, m, 46, 15, 0xCE620273, 0xE95C3A43, 0x2DBEE21D, 0x047B9419, 0x00803938, 16, 0x1FA27CF8, 0xEE46E961);
    Turn3(r, m, 47, 2, 0x047B9419, 0xEE46E961, 0xE95C3A43, 0x2DBEE21D, 0x4C4B4A49, 23, 0xC4AC5665, 0xF166F514);
  }

  lemma AlnumFirstRound4(m: Words)
    requires IsAlnumFirst(m)
    ensures Steps(R(0x67452301, 0xEFCDAB89, 0x98BADCFE, 0x10325476), m, 64) ==
      R(0x1CB80F0A, 0xEF2E3A46, 0x10F68731, 0xEA3D3EB4)
  {
    hide Steps, Entry, T, Index, Amount, R;
    var r := R(0x67452301, 0xEFCDAB89, 0x98BADCFE, 0x10325476);
    Row48();
    Row52();
    Row56();
    Row60();
    AlnumFirstRound3(m);
    Turn4(r, m, 48, 0, 0x2DBEE21D, 0xF166F514, 0xEE46E961, 0xE95C3A43, 0x44434241, 6, 0xF4292244, 0xE47FD4F3);
    Turn4(r, m, 49, 7, 0xE95C3A43, 0xE47FD4F3, 0xF166F514, 0xEE46E961, 0x66656463, 10, 0x432AFF97, 0xFB887751);
    Turn4(r, m, 50, 14, 0xEE46E961, 0xFB887751, 0xE47FD4F3, 0xF166F514, 0x37363534, 15, 0xAB9423A7, 0xF22AEDCC);
    Turn4(r, m, 51, 5, 0xF166F514, 0xF22AEDCC, 0xFB887751, 0xE47FD4F3, 0x58575655, 21, 0xFC93A039, 0x7A13BC5C);
    Turn4(r, m, 52, 12, 0xE47FD4F3, 0x7A13BC5C, 0xF22AEDCC, 0xFB887751, 0x7A797877, 6, 0x655B59C3, 0xA691D430);
    Turn4(r, m, 53, 3, 0xFB887751, 0xA691D430, 0x7A13BC5C, 0xF22AEDCC, 0x504F4E4D, 10, 0x8F0CCC92, 0x528452F2);
    Turn4(r, m, 54, 10, 0xF22AEDCC, 0x528452F2, 0xA691D430, 0x7A13BC5C, 0x7271706F, 15, 0xFFEFF47D, 0x3FC23DF6);
    Turn4(r, m, 55, 1, 0x7A13BC5C, 0x3FC23DF6, 0x528452F2, 0xA691D430, 0x48474645, 21, 0x85845DD1, 0xEFB0E72F);
    Turn4(r, m, 56, 8, 0xA691D430, 0xEFB0E72F, 0x3FC23DF6, 0x528452F2, 0x6A696867, 6, 0x6FA87E4F, 0x27145703);
    Turn4(r, m, 57, 15, 0x528452F2, 0x27145703, 0xEFB0E72F, 0x3FC23DF6, 0x00803938, 10, 0xFE2CE6E0, 0x21A11069);
    Turn4(r, m, 58, 6, 0x3FC23DF6, 0x21A11069, 0x27145703, 0xEFB0E72F, 0x62615A59, 15, 0xA3014314, 0x374FBE79);
    Turn4(r, m, 59, 13, 0xEFB0E72F, 0x374FBE79, 0x21A11069, 0x27145703, 0x33323130, 21, 0x4E0811A1, 0x49D9A5B4);
    Turn4(r, m, 60, 4, 0x27145703, 0x49D9A5B4, 0x374FBE79, 0x21A11069, 0x54535251, 6, 0xF7537E82, 0x1CB80F0A);
    Turn4(r, m, 61, 11, 0x21A11069, 0x1CB80F0A, 0x49D9A5B4, 0x374FBE79, 0x76757473, 10, 0xBD3AF235, 0xEA3D3EB4);
    Turn4(r, m, 62, 2, 0x374FBE79, 0xEA3D3EB4, 0x1CB80F0A, 0x49D9A5B4, 0x4C4B4A49, 15, 0x2AD7D2BB, 0x10F68731);
    Turn4(r, m, 63, 9, 0x49D9A5B4, 0x10F68731, 0xEA3D3EB4, 0x1CB80F0A, 0x6E6D6C6B, 21, 0xEB86D391, 0xEF2E3A46);
  }

  /** The words of its second block. */
  predicate IsAlnumSecond(m: Words) {
    m[0] == Word(0x00000000) && m[1] == Word(0x00000000) && m[2] == Word(0x00000000) && m[3] == Word(0x00000000)
    && m[4] == Word(0x00000000) && m[5] == Word(0x00000000) && m[6] == Word(0x00000000) && m[7] == Word(0x00000000)
    && m[8] == Word(0x00000000) && m[9] == Word(0x00000000) && m[10] == Word(0x00000000) && m[11] == Word(0x00000000)
    && m[12] == Word(0x00000000) && m[13] == Word(0x00000000) && m[14] == Word(0x000001F0) && m[15] == Word(0x00000000)
  }

  lemma AlnumSecondRound1(m: Words)
    requires IsAlnumSecond(m)
    ensures Steps(R(0x83FD320B, 0xDEFBE5CF, 0xA9B1642F, 0xFA6F932A), m, 16) ==
      R(0xA70737DA, 0xA36F556F, 0x96F6586E, 0x5473F8A7)
  {
    hide Steps, Entry, T, Index, Amount, R;
    var r := R(0x83FD320B, 0xDEFBE5CF, 0xA9B1642F, 0xFA6F932A);
    Row0();
    Row4();
    Row8();
    Row12();
    NoSteps(r, m);
    Turn1(r, m, 0, 0, 0x83FD320B, 0xDEFBE5CF, 0xA9B1642F, 0xFA6F932A, 0x00000000, 7, 0xD76AA478, 0xEDA23ED1);
    Turn1(r, m, 1, 1, 0xFA6F932A, 0xEDA23ED1, 0xDEFBE5CF, 0xA9B1642F, 0x00000000, 12, 0xE8C7B756, 0x989939CF);
    Turn1(r, m, 2, 2, 0xA9B1642F, 0x989939CF, 0xEDA23ED1, 0xDEFBE5CF, 0x00000000, 17, 0x242070DB, 0x3C307338);
    Turn1(r, m, 3, 3, 0xDEFBE5CF, 0x3C307338, 0x989939CF, 0xEDA23ED1, 0x00000000, 22, 0xC1BDCEEE, 0xDDCF0634);
    Turn1(r, m, 4, 4, 0xEDA23ED1, 0xDDCF0634, 0x3C307338, 0x989939CF, 0x00000000, 7, 0xF57C0FAF, 0x75144433);
    Turn1(r, m, 5, 5, 0x989939CF, 0x75144433, 0xDDCF0634, 0x3C307338, 0x00000000, 12, 0x4787C62A, 0xC8875807);
    Turn1(r, m, 6, 6, 0x3C307338, 0xC8875807, 0x75144433, 0xDDCF0634, 0x00000000, 17, 0xA8304613, 0xC783CB60);
    Turn1(r, m, 7, 7, 0xDDCF0634, 0xC783CB60, 0xC8875807, 0x75144433, 0x00000000, 22, 0xFD469501, 0x99B6B699);
    Turn1(r, m, 8, 8, 0x75144433, 0x99B6B699, 0xC783CB60, 0xC8875807, 0x00000000, 7, 0x698098D8, 0xA60A3F69);
    Turn1(r, m, 9, 9, 0xC8875807, 0xA60A3F69, 0x99B6B699, 0xC783CB60, 0x00000000, 12, 0x8B44F7AF, 0xAA6630BE);
    Turn1(r, m, 10, 10, 0xC783CB60, 0xAA6630BE, 0xA60A3F69, 0x99B6B699, 0x00000000, 17, 0xFFFF5BB1, 0x64DB26E9);
    Turn1(r, m, 11, 11, 0x99B6B699, 0x64DB26E9, 0xAA6630BE, 0xA60A3F69, 0x00000000, 22, 0x895CD7BE, 0x64CC7C5A);
    Turn1(r, m, 12, 12, 0xA60A3F69, 0x64CC7C5A, 0x64DB26E9, 0xAA6630BE, 0x00000000, 7, 0x6B901122, 0xA70737DA);
    Turn1(r, m, 13, 13, 0xAA6630BE, 0xA70737DA, 0x64CC7C5A, 0x64DB26E9, 0x00000000, 12, 0xFD987193, 0x5473F8A7);
    Turn1(r, m, 14, 14, 0x64DB26E9, 0x5473F8A7, 0xA70737DA, 0x64CC7C5A, 0x000001F0, 17, 0xA679438E, 0x96F6586E);
    Turn1(r, m, 15, 15, 0x64CC7C5A, 0x96F6586E, 0x5473F8A7, 0xA70737DA, 0x00000000, 22, 0x49B40821, 0xA36F556F);
  }

  lemma AlnumSecondRound2(m: Words)
    requires IsAlnumSecond(m)
    ensures Steps(R(0x83FD320B, 0xDEFBE5CF, 0xA9B1642F, 0xFA6F932A), m, 32) ==
      R(0x24EBA695, 0x9C03E2E8, 0x10C42A2F, 0x4BD0378B)
  {
    hide Steps, Entry, T, Index, Amount, R;
    var r := R(0x83FD320B, 0xDEFBE5CF, 0xA9B1642F, 0xFA6F932A);
    Row16();
    Row20();
    Row24();
    Row28();
    AlnumSecondRound1(m);
    Turn2(r, m, 16, 1, 0xA70737DA, 0xA36F556F, 0x96F6586E, 0x5473F8A7, 0x00000000, 5, 0xF61E2562, 0xA5050AD3);
    Turn2(r, m, 17, 6, 0x5473F8A7, 0xA5050AD3, 0xA36F556F, 0x96F6586E, 0x00000000, 9, 0xC040B340, 0x28776046);
    Turn2(r, m, 18, 11, 0x96F6586E, 0x28776046, 0xA5050AD3, 0xA36F556F, 0x00000000, 14, 0x265E5A51, 0x27DCD8B4);
    Turn2(r, m, 19, 0, 0xA36F556F, 0x27DCD8B4, 0x28776046, 0xA5050AD3, 0x00000000, 20, 0xE9B6C7AA, 0x82B8827C);
    Turn2(r, m, 20, 5, 0xA5050AD3, 0x82B8827C, 0x27DCD8B4, 0x28776046, 0x00000000, 5, 0xD62F105D, 0xE04F070C);
    Turn2(r, m, 21, 10, 0x28776046, 0xE04F070C, 0x82B8827C, 0x27DCD8B4, 0x00000000, 9, 0x02441453, 0x2F3CD2A2);
    Turn2(r, m, 22, 15, 0x27DCD8B4, 0x2F3CD2A2, 0xE04F070C, 0x82B8827C, 0x00000000, 14, 0xD8A1E681, 0xC0D22B61);
    Turn2(r, m, 23, 4, 0x82B8827C, 0xC0D22B61, 0x2F3CD2A2, 0xE04F070C, 0x00000000, 20, 0xE7D3FBC8, 0xDF35CB56);
    Turn2(r, m, 24, 9, 0xE04F070C, 0xDF35CB56, 0xC0D22B61, 0x2F3CD2A2, 0x00000000, 5, 0x21E1CDE6, 0x242DD210);
    Turn2(r, m, 25, 14, 0x2F3CD2A2, 0x242DD210, 0xDF35CB56, 0xC0D22B61, 0x000001F0, 9, 0xC33707D6, 0x576ACE33);
    Turn2(r, m, 26, 3, 0xC0D22B61, 0x576ACE33, 0x242DD210, 0xDF35CB56, 0x00000000, 14, 0xF4D50D87, 0x5C295967);
    Turn2(r, m, 27, 8, 0xDF35CB56, 0x5C295967, 0x576ACE33, 0x242DD210, 0x00000000, 20, 0x455A14ED, 0x2291191A);
    Turn2(r, m, 28, 13, 0x242DD210, 0x2291191A, 0x5C295967, 0x576ACE33, 0x00000000, 5, 0xA9E3E905, 0x24EBA695);
    Turn2(r, m, 29, 2, 0x576ACE33, 0x24EBA695, 0x2291191A, 0x5C295967, 0x00000000, 9, 0xFCEFA3F8, 0x4BD0378B);
    Turn2(r, m, 30, 7, 0x5C295967, 0x4BD0378B, 0x24EBA695, 0x2291191A, 0x00000000, 14, 0x676F02D9, 0x10C42A2F);
    Turn2(r, m, 31, 12, 0x2291191A, 0x10C42A2F, 0x4BD0378B, 0x24EBA695, 0x00000000, 20, 0x8D2A4C8A, 0x9C03E2E8);
  }

  lemma AlnumSecondRound3(m: Words)
    requires IsAlnumSecond(m)
    ensures Steps(R(0x83FD320B, 0xDEFBE5CF, 0xA9B1642F, 0xFA6F932A), m, 48) ==
      R(0x54C9EB3A, 0x79C0710A, 0x2EC86F72, 0xD4D9C6AC)
  {
    hide Steps, Entry, T, Index, Amount, R;
    var r := R(0x83FD320B, 0xDEFBE5CF, 0xA9B1642F, 0xFA6F932A);
    Row32();
    Row36();
    Row40();
    Row44();
    AlnumSecondRound2(m);
    Turn3(r, m, 32, 5, 0x24EBA695, 0x9C03E2E8, 0x10C42A2F, 0x4BD0378B, 0x00000000, 4, 0xFFFA3942, 0x5BE1D526);
    Turn3(r, m, 33, 8, 0x4BD0378B, 0x5BE1D526, 0x9C03E2E8, 0x10C42A2F, 0x00000000, 11, 0x8771F681, 0x9E414279);
    Turn3(r, m, 34, 11, 0x10C42A2F, 0x9E414279, 0x5BE1D526, 0x9C03E2E8, 0x00000000, 16, 0x6D9D6122, 0x9F4A1A7E);
    Turn3(r, m, 35, 14, 0x9C03E2E8, 0x9F4A1A7E, 0x9E414279, 0x5BE1D526, 0x000001F0, 23, 0xFDE5380C, 0xA2448453);
    Turn3(r, m, 36, 1, 0x5BE1D526, 0xA2448453, 0x9F4A1A7E, 0x9E414279, 0x00000000, 4, 0xA4BEEA44, 0xE14E403D);
    Turn3(r, m, 37, 4, 0x9E414279, 0xE14E403D, 0xA2448453, 0x9F4A1A7E, 0x00000000, 11, 0x4BDECFA9, 0xE8CFD670);
    Turn3(r, m, 38, 7, 0x9F4A1A7E, 0xE8CFD670, 0xE14E403D, 0xA2448453, 0x00000000, 16, 0xF6BB4B60, 0x60CC183A);
    Turn3(r, m, 39, 10, 0xA2448453, 0x60CC183A, 0xE8CFD670, 0xE14E403D, 0x00000000, 23, 0xBEBFBC70, 0xFE314121);
    Turn3(r, m, 40, 13, 0xE14E403D, 0xFE314121, 0x60CC183A, 0xE8CFD670, 0x00000000, 4, 0x289B7EC6, 0xFFF62809);
    Turn3(r, m, 41, 0, 0xE8CFD670, 0xFFF62809, 0xFE314121, 0x60CC183A, 0x00000000, 11, 0xEAA127FA, 0xE37209AC);
    Turn3(r, m, 42, 3, 0x60CC183A, 0xE37209AC, 0xFFF62809, 0xFE314121, 0x00000000, 16, 0xD4EF3085, 0x8CB5221C);
    Turn3(r, m, 43, 6, 0xFE314121, 0x8CB5221C, 0xE37209AC, 0xFFF62809, 0x00000000, 23, 0x04881D05, 0x7C7E974C);
    Turn3(r, m, 44, 9, 0xFFF62809, 0x7C7E974C, 0x8CB5221C, 0xE37209AC, 0x00000000, 4, 0xD9D4D039, 0x54C9EB3A);
    Turn3(r, m, 45, 12, 0xE37209AC, 0x54C9EB3A, 0x7C7E974C, 0x8CB5221C, 0x00000000, 11, 0xE6DB99E5, 0xD4D9C6AC);
    Turn3(r, m, 46, 15, 0x8CB5221C, 0xD4D9C6AC, 0x54C9EB3A, 0x7C7E974C, 0x00000000, 16, 0x1FA27CF8, 0x2EC86F72);
    Turn3(r, m, 47, 2, 0x7C7E974C, 0x2EC86F72, 0xD4D9C6AC, 0x54C9EB3A, 0x00000000, 23, 0xC4AC5665, 0x79C0710A);
  }

  lemma AlnumSecondRound4(m: Words)
    requires IsAlnumSecond(m)
    ensures Steps(R(0x83FD320B, 0xDEFBE5CF, 0xA9B1642F, 0xFA6F932A), m, 64) ==
      R(0x14AE42C6, 0x16DD9203, 0x826AFD76, 0xA52DAE75)
  {
    hide Steps, Entry, T, Index, Amount, R;
    var r := R(0x83FD320B, 0xDEFBE5CF, 0xA9B1642F, 0xFA6F932A);
    Row48();
    Row52();
    Row56();
    Row60();
    AlnumSecondRound3(m);
    Turn4(r, m, 48, 0, 0x54C9EB3A, 0x79C0710A, 0x2EC86F72, 0xD4D9C6AC, 0x00000000, 6, 0xF4292244, 0x02095AF1);
    Turn4(r, m, 49, 7, 0xD4D9C6AC, 0x02095AF1, 0x79C0710A, 0x2EC86F72, 0x00000000, 10, 0x432AFF97, 0x13D245FD);
    Turn4(r, m, 50, 14, 0x2EC86F72, 0x13D245FD, 0x02095AF1, 0x79C0710A, 0x000001F0, 15, 0xAB9423A7, 0xA8DCFE26);
    Turn4(r, m, 51, 5, 0x79C0710A, 0xA8DCFE26, 0x13D245FD, 0x02095AF1, 0x00000000, 21, 0xFC93A039, 0x2BA98E3F);
    Turn4(r, m, 52, 12, 0x02095AF1, 0x2BA98E3F, 0xA8DCFE26, 0x13D245FD, 0x00000000, 6, 0x655B59C3, 0xE126C1AA);
    Turn4(r, m, 53, 3, 0x13D245FD, 0xE126C1AA, 0x2BA98E3F, 0xA8DCFE26, 0x00000000, 10, 0x8F0CCC92, 0x96B00FA7);
    Turn4(r, m, 54, 10, 0xA8DCFE26, 0x96B00FA7, 0xE126C1AA, 0x2BA98E3F, 0x00000000, 15, 0xFFEFF47D, 0x6F287FF5);
    Turn4(r, m, 55, 1, 0x2BA98E3F, 0x6F287FF5, 0x96B00FA7, 0xE126C1AA, 0x00000000, 21, 0x85845DD1, 0xFB7BCEE0);
    Turn4(r, m, 56, 8, 0xE126C1AA, 0xFB7BCEE0, 0x6F287FF5, 0x96B00FA7, 0x00000000, 6, 0x6FA87E4F, 0x452C1099);
    Turn4(r, m, 57, 15, 0x96B00FA7, 0x452C1099, 0xFB7BCEE0, 0x6F287FF5, 0x00000000, 10, 0xFE2CE6E0, 0xCA801BA6);
    Turn4(r, m, 58, 6, 0x6F287FF5, 0xCA801BA6, 0x452C1099, 0xFB7BCEE0, 0x00000000, 15, 0xA3014314, 0xC197EA8E);
    Turn4(r, m, 59, 13, 0xFB7BCEE0, 0xC197EA8E, 0xCA801BA6, 0x452C1099, 0x00000000, 21, 0x4E0811A1, 0x5AC74608);
    Turn4(r, m, 60, 4, 0x452C1099, 0x5AC74608, 0xC197EA8E, 0xCA801BA6, 0x00000000, 6, 0xF7537E82, 0x14AE42C6);
    Turn4(r, m, 61, 11, 0xCA801BA6, 0x14AE42C6, 0x5AC74608, 0xC197EA8E, 0x00000000, 10, 0xBD3AF235, 0xA52DAE75);
    Turn4(r, m, 62, 2, 0xC197EA8E, 0xA52DAE75, 0x14AE42C6, 0x5AC74608, 0x00000000, 15, 0x2AD7D2BB, 0x826AFD76);
    Turn4(r, m, 63, 9, 0x5AC74608, 0x826AFD76, 0xA52DAE75, 0x14AE42C6, 0x00000000, 21, 0xEB86D391, 0x16DD9203);
  }
}
