/** The MD5 compression function: the reference loop of section 3.4 of RFC 1321, the unrolled code, and the
    invertibility of the steps. */
module Md5Compress {
  import opened Common

  /** A `uint32_t`, as one value: its bits matter only inside the operations below. */
  datatype Word = Word(bits: bv32)

  /** The four-word state. */
  datatype Regs = Regs(a: Word, b: Word, c: Word, d: Word)

  const INIT: Regs := Regs(Word(0x67452301), Word(0xEFCDAB89), Word(0x98BADCFE), Word(0x10325476))

  function F(x: Word, y: Word, z: Word): Word { Word((x.bits & y.bits) | (!x.bits & z.bits)) }
  function G(x: Word, y: Word, z: Word): Word { Word((x.bits & z.bits) | (y.bits & !z.bits)) }
  function H(x: Word, y: Word, z: Word): Word { Word(x.bits ^ y.bits ^ z.bits) }
  function I(x: Word, y: Word, z: Word): Word { Word(y.bits ^ (x.bits | !z.bits)) }

  function Add(x: bv32, y: bv32): bv32 { x + y }

  /** Addition modulo 2^32. */
  function Sum(x: Word, y: Word): Word { Word(Add(x.bits, y.bits)) }

  function Rotl(x: Word, n: bv32): Word
    requires 0 < n < 32
  {
    Word((x.bits << n) | (x.bits >> (32 - n)))
  }

  // The four step macros: the new value of the first register.

  function FF(a: Word, b: Word, c: Word, d: Word, x: Word, s: bv32, ac: Word): Word
    requires 0 < s < 32
  {
    Sum(Rotl(Sum(a, Sum(Sum(F(b, c, d), x), ac)), s), b)
  }

  function GG(a: Word, b: Word, c: Word, d: Word, x: Word, s: bv32, ac: Word): Word
    requires 0 < s < 32
  {
    Sum(Rotl(Sum(a, Sum(Sum(G(b, c, d), x), ac)), s), b)
  }

  function HH(a: Word, b: Word, c: Word, d: Word, x: Word, s: bv32, ac: Word): Word
    requires 0 < s < 32
  {
    Sum(Rotl(Sum(a, Sum(Sum(H(b, c, d), x), ac)), s), b)
  }

  function II(a: Word, b: Word, c: Word, d: Word, x: Word, s: bv32, ac: Word): Word
    requires 0 < s < 32
  {
    Sum(Rotl(Sum(a, Sum(Sum(I(b, c, d), x), ac)), s), b)
  }

  type Block = block: seq<Byte> | |block| == 64 witness seq(64, _ => 0)

  /** The sixteen words of a block. */
  type Words = m: seq<Word> | |m| == 16 witness seq(16, _ => Word(0))

  /** Word `i` of a block, little-endian. */
  function WordAt(block: Block, i: nat): Word
    requires i < 16
  {
    Word((block[i * 4] as bv32) | ((block[i * 4 + 1] as bv32) << 8)
         | ((block[i * 4 + 2] as bv32) << 16) | ((block[i * 4 + 3] as bv32) << 24))
  }

  function WordsOf(block: Block): Words {
    seq(16, i requires 0 <= i < 16 => WordAt(block, i))
  }

  // ------------------------------------------------------------------ the reference loop

  /** The table T of RFC 1321, one round after the other: T[i + 1] is the integer part of 2^32 * |sin(i + 1)|. */
  function T(i: nat): Word
    requires i < 64
  {
    if i < 16 then T1(i) else if i < 32 then T2(i - 16) else if i < 48 then T3(i - 32) else T4(i - 48)
  }

  function T1(i: nat): Word {
    match i
    case 0 => Word(0xD76AA478) case 1 => Word(0xE8C7B756) case 2 => Word(0x242070DB) case 3 => Word(0xC1BDCEEE)
    case 4 => Word(0xF57C0FAF) case 5 => Word(0x4787C62A) case 6 => Word(0xA8304613) case 7 => Word(0xFD469501)
    case 8 => Word(0x698098D8) case 9 => Word(0x8B44F7AF) case 10 => Word(0xFFFF5BB1) case 11 => Word(0x895CD7BE)
    case 12 => Word(0x6B901122) case 13 => Word(0xFD987193) case 14 => Word(0xA679438E) case _ => Word(0x49B40821)
  }

  function T2(i: nat): Word {
    match i
    case 0 => Word(0xF61E2562) case 1 => Word(0xC040B340) case 2 => Word(0x265E5A51) case 3 => Word(0xE9B6C7AA)
    case 4 => Word(0xD62F105D) case 5 => Word(0x02441453) case 6 => Word(0xD8A1E681) case 7 => Word(0xE7D3FBC8)
    case 8 => Word(0x21E1CDE6) case 9 => Word(0xC33707D6) case 10 => Word(0xF4D50D87) case 11 => Word(0x455A14ED)
    case 12 => Word(0xA9E3E905) case 13 => Word(0xFCEFA3F8) case 14 => Word(0x676F02D9) case _ => Word(0x8D2A4C8A)
  }

  function T3(i: nat): Word {
    match i
    case 0 => Word(0xFFFA3942) case 1 => Word(0x8771F681) case 2 => Word(0x6D9D6122) case 3 => Word(0xFDE5380C)
    case 4 => Word(0xA4BEEA44) case 5 => Word(0x4BDECFA9) case 6 => Word(0xF6BB4B60) case 7 => Word(0xBEBFBC70)
    case 8 => Word(0x289B7EC6) case 9 => Word(0xEAA127FA) case 10 => Word(0xD4EF3085) case 11 => Word(0x04881D05)
    case 12 => Word(0xD9D4D039) case 13 => Word(0xE6DB99E5) case 14 => Word(0x1FA27CF8) case _ => Word(0xC4AC5665)
  }

  function T4(i: nat): Word {
    match i
    case 0 => Word(0xF4292244) case 1 => Word(0x432AFF97) case 2 => Word(0xAB9423A7) case 3 => Word(0xFC93A039)
    case 4 => Word(0x655B59C3) case 5 => Word(0x8F0CCC92) case 6 => Word(0xFFEFF47D) case 7 => Word(0x85845DD1)
    case 8 => Word(0x6FA87E4F) case 9 => Word(0xFE2CE6E0) case 10 => Word(0xA3014314) case 11 => Word(0x4E0811A1)
    case 12 => Word(0xF7537E82) case 13 => Word(0xBD3AF235) case 14 => Word(0x2AD7D2BB) case _ => Word(0xEB86D391)
  }

  /** The message word that step `i` takes. */
  function Index(i: nat): (k: nat)
    requires i < 64
    ensures k < 16
  {
    if i < 16 then i else if i < 32 then (5 * i + 1) % 16 else if i < 48 then (3 * i + 5) % 16 else (7 * i) % 16
  }

  function Pick(i: nat, s0: bv32, s1: bv32, s2: bv32, s3: bv32): bv32 {
    if i % 4 == 0 then s0 else if i % 4 == 1 then s1 else if i % 4 == 2 then s2 else s3
  }

  function Amount(i: nat): (s: bv32)
    requires i < 64
    ensures 0 < s < 32
  {
    if i < 16 then Pick(i, 7, 12, 17, 22) else if i < 32 then Pick(i, 5, 9, 14, 20)
    else if i < 48 then Pick(i, 4, 11, 16, 23) else Pick(i, 6, 10, 15, 21)
  }

  function Auxiliary(i: nat, x: Word, y: Word, z: Word): Word {
    if i < 16 then F(x, y, z) else if i < 32 then G(x, y, z) else if i < 48 then H(x, y, z) else I(x, y, z)
  }

  /** One operation: b + ((a + f(b, c, d) + X[k] + T[i]) <<< s). */
  function Operation(f: Word, a: Word, b: Word, x: Word, s: bv32, t: Word): Word
    requires 0 < s < 32
  {
    Sum(b, Rotl(Sum(Sum(Sum(a, f), x), t), s))
  }

  /** The operation on the first register, after which the registers move round by one place. */
  function Step(i: nat, r: Regs, m: Words): Regs
    requires i < 64
  {
    Regs(r.d, Operation(Auxiliary(i, r.b, r.c, r.d), r.a, r.b, m[Index(i)], Amount(i), T(i)), r.b, r.c)
  }

  function Steps(r: Regs, m: Words, n: nat): Regs
    requires n <= 64
    decreases n
  {
    if n == 0 then r else Step(n - 1, Steps(r, m, n - 1), m)
  }

  function Plus(r: Regs, s: Regs): Regs {
    Regs(Sum(r.a, s.a), Sum(r.b, s.b), Sum(r.c, s.c), Sum(r.d, s.d))
  }

  /** What a block does to the state: four rounds of one step per word, added to the old state. */
  function Compress(r: Regs, block: Block): Regs {
    var m := WordsOf(block);
    Plus(r, Steps(r, m, 4 * |m|))
  }

  // ------------------------------------------------------------------ the unrolled code

  lemma AddUnfolds(x: bv32, y: bv32)
    ensures Add(x, y) == x + y
  {
  }

  lemma AddAssociative(x: bv32, y: bv32, z: bv32)
    ensures Add(Add(x, y), z) == Add(x, Add(y, z))
  {
    assert Add(x + y, z) == Add(x, y + z);
    AddUnfolds(x, y);
    AddUnfolds(y, z);
    hide Add;
  }

  lemma SumAssociative(x: Word, y: Word, z: Word)
    ensures Sum(Sum(x, y), z) == Sum(x, Sum(y, z))
  {
    hide Add;
    AddAssociative(x.bits, y.bits, z.bits);
  }

  lemma SumCommutes(x: Word, y: Word)
    ensures Sum(x, y) == Sum(y, x)
  {
    assert Add(x.bits, y.bits) == Add(y.bits, x.bits);
    hide Add;
  }

  lemma SameOperation(f: Word, a: Word, b: Word, x: Word, s: bv32, t: Word)
    requires 0 < s < 32
    ensures Sum(Rotl(Sum(a, Sum(Sum(f, x), t)), s), b) == Operation(f, a, b, x, s, t)
  {
    SumAssociative(a, Sum(f, x), t);
    SumAssociative(a, f, x);
    SumCommutes(b, Rotl(Sum(Sum(Sum(a, f), x), t), s));
    hide Sum, Rotl;
  }

  function FourSteps(k: nat, r: Regs, m: Words): Regs
    requires k + 4 <= 64
  {
    Step(k + 3, Step(k + 2, Step(k + 1, Step(k, r, m), m), m), m)
  }

  lemma StepsByFour(r: Regs, m: Words, k: nat)
    requires k + 4 <= 64
    ensures Steps(r, m, k + 4) == FourSteps(k, Steps(r, m, k), m)
  {
    hide Step;
    assert Steps(r, m, k + 2) == Step(k + 1, Step(k, Steps(r, m, k), m), m);
  }

  lemma FFStep(i: nat, r: Regs, m: Words)
    requires 0 <= i < 16
    ensures Step(i, r, m) == Regs(r.d, FF(r.a, r.b, r.c, r.d, m[Index(i)], Amount(i), T(i)), r.b, r.c)
  {
    SameOperation(F(r.b, r.c, r.d), r.a, r.b, m[Index(i)], Amount(i), T(i));
    hide Sum, Rotl, F, G, H, I, Operation, T, Amount, Index;
  }

  /** Four lines of round 1: after them the registers stand where they stood. */
  lemma FFQuad(k: nat, r: Regs, m: Words)
    requires k % 4 == 0 && 0 <= k < k + 4 <= 16
    ensures var a := FF(r.a, r.b, r.c, r.d, m[Index(k)], 7, T(k));
            var d := FF(r.d, a, r.b, r.c, m[Index(k + 1)], 12, T(k + 1));
            var c := FF(r.c, d, a, r.b, m[Index(k + 2)], 17, T(k + 2));
            var b := FF(r.b, c, d, a, m[Index(k + 3)], 22, T(k + 3));
            FourSteps(k, r, m) == Regs(a, b, c, d)
  {
    hide Step, FF, T, Index;
    FFStep(k, r, m);
    var r1 := Step(k, r, m);
    FFStep(k + 1, r1, m);
    var r2 := Step(k + 1, r1, m);
    FFStep(k + 2, r2, m);
    FFStep(k + 3, Step(k + 2, r2, m), m);
  }

  lemma GGStep(i: nat, r: Regs, m: Words)
    requires 16 <= i < 32
    ensures Step(i, r, m) == Regs(r.d, GG(r.a, r.b, r.c, r.d, m[Index(i)], Amount(i), T(i)), r.b, r.c)
  {
    SameOperation(G(r.b, r.c, r.d), r.a, r.b, m[Index(i)], Amount(i), T(i));
    hide Sum, Rotl, F, G, H, I, Operation, T, Amount, Index;
  }

  /** Four lines of round 2: after them the registers stand where they stood. */
  lemma GGQuad(k: nat, r: Regs, m: Words)
    requires k % 4 == 0 && 16 <= k < k + 4 <= 32
    ensures var a := GG(r.a, r.b, r.c, r.d, m[Index(k)], 5, T(k));
            var d := GG(r.d, a, r.b, r.c, m[Index(k + 1)], 9, T(k + 1));
            var c := GG(r.c, d, a, r.b, m[Index(k + 2)], 14, T(k + 2));
            var b := GG(r.b, c, d, a, m[Index(k + 3)], 20, T(k + 3));
            FourSteps(k, r, m) == Regs(a, b, c, d)
  {
    hide Step, GG, T, Index;
    GGStep(k, r, m);
    var r1 := Step(k, r, m);
    GGStep(k + 1, r1, m);
    var r2 := Step(k + 1, r1, m);
    GGStep(k + 2, r2, m);
    GGStep(k + 3, Step(k + 2, r2, m), m);
  }

  lemma HHStep(i: nat, r: Regs, m: Words)
    requires 32 <= i < 48
    ensures Step(i, r, m) == Regs(r.d, HH(r.a, r.b, r.c, r.d, m[Index(i)], Amount(i), T(i)), r.b, r.c)
  {
    SameOperation(H(r.b, r.c, r.d), r.a, r.b, m[Index(i)], Amount(i), T(i));
    hide Sum, Rotl, F, G, H, I, Operation, T, Amount, Index;
  }

  /** Four lines of round 3: after them the registers stand where they stood. */
  lemma HHQuad(k: nat, r: Regs, m: Words)
    requires k % 4 == 0 && 32 <= k < k + 4 <= 48
    ensures var a := HH(r.a, r.b, r.c, r.d, m[Index(k)], 4, T(k));
            var d := HH(r.d, a, r.b, r.c, m[Index(k + 1)], 11, T(k + 1));
            var c := HH(r.c, d, a, r.b, m[Index(k + 2)], 16, T(k + 2));
            var b := HH(r.b, c, d, a, m[Index(k + 3)], 23, T(k + 3));
            FourSteps(k, r, m) == Regs(a, b, c, d)
  {
    hide Step, HH, T, Index;
    HHStep(k, r, m);
    var r1 := Step(k, r, m);
    HHStep(k + 1, r1, m);
    var r2 := Step(k + 1, r1, m);
    HHStep(k + 2, r2, m);
    HHStep(k + 3, Step(k + 2, r2, m), m);
  }

  lemma IIStep(i: nat, r: Regs, m: Words)
    requires 48 <= i < 64
    ensures Step(i, r, m) == Regs(r.d, II(r.a, r.b, r.c, r.d, m[Index(i)], Amount(i), T(i)), r.b, r.c)
  {
    SameOperation(I(r.b, r.c, r.d), r.a, r.b, m[Index(i)], Amount(i), T(i));
    hide Sum, Rotl, F, G, H, I, Operation, T, Amount, Index;
  }

  /** Four lines of round 4: after them the registers stand where they stood. */
  lemma IIQuad(k: nat, r: Regs, m: Words)
    requires k % 4 == 0 && 48 <= k < k + 4 <= 64
    ensures var a := II(r.a, r.b, r.c, r.d, m[Index(k)], 6, T(k));
            var d := II(r.d, a, r.b, r.c, m[Index(k + 1)], 10, T(k + 1));
            var c := II(r.c, d, a, r.b, m[Index(k + 2)], 15, T(k + 2));
            var b := II(r.b, c, d, a, m[Index(k + 3)], 21, T(k + 3));
            FourSteps(k, r, m) == Regs(a, b, c, d)
  {
    hide Step, II, T, Index;
    IIStep(k, r, m);
    var r1 := Step(k, r, m);
    IIStep(k + 1, r1, m);
    var r2 := Step(k + 1, r1, m);
    IIStep(k + 2, r2, m);
    IIStep(k + 3, Step(k + 2, r2, m), m);
  }

  // ------------------------------------------------------------------ the steps backwards

  function Sub(x: bv32, y: bv32): bv32 { x - y }

  /** Subtraction modulo 2^32. */
  function Diff(x: Word, y: Word): Word { Word(Sub(x.bits, y.bits)) }

  lemma SubUndoesAdd(x: bv32, y: bv32)
    ensures Sub(Add(x, y), y) == x
  {
    assert Sub(x + y, y) == x;
    hide Sub;
  }

  lemma AddUndoesSub(x: bv32, y: bv32)
    ensures Add(Sub(x, y), y) == x
  {
    assert Add(x - y, y) == x;
    hide Add;
  }

  lemma SumAndDiff(x: Word, y: Word)
    ensures Diff(Sum(x, y), y) == x && Sum(Diff(x, y), y) == x
  {
    hide Add, Sub;
    SubUndoesAdd(x.bits, y.bits);
    AddUndoesSub(x.bits, y.bits);
  }

  predicate IsAmount(s: bv32) {
    s == 4 || s == 5 || s == 6 || s == 7 || s == 9 || s == 10 || s == 11 || s == 12 || s == 14 || s == 15
    || s == 16 || s == 17 || s == 20 || s == 21 || s == 22 || s == 23
  }

  lemma RotlBack4(x: Word)
    ensures Rotl(Rotl(x, 4), 28) == x && Rotl(Rotl(x, 28), 4) == x
  {
  }

  lemma RotlBack5(x: Word)
    ensures Rotl(Rotl(x, 5), 27) == x && Rotl(Rotl(x, 27), 5) == x
  {
  }

  lemma RotlBack6(x: Word)
    ensures Rotl(Rotl(x, 6), 26) == x && Rotl(Rotl(x, 26), 6) == x
  {
  }

  lemma RotlBack7(x: Word)
    ensures Rotl(Rotl(x, 7), 25) == x && Rotl(Rotl(x, 25), 7) == x
  {
  }

  lemma RotlBack9(x: Word)
    ensures Rotl(Rotl(x, 9), 23) == x && Rotl(Rotl(x, 23), 9) == x
  {
  }

  lemma RotlBack10(x: Word)
    ensures Rotl(Rotl(x, 10), 22) == x && Rotl(Rotl(x, 22), 10) == x
  {
  }

  lemma RotlBack11(x: Word)
    ensures Rotl(Rotl(x, 11), 21) == x && Rotl(Rotl(x, 21), 11) == x
  {
  }

  lemma RotlBack12(x: Word)
    ensures Rotl(Rotl(x, 12), 20) == x && Rotl(Rotl(x, 20), 12) == x
  {
  }

  lemma RotlBack14(x: Word)
    ensures Rotl(Rotl(x, 14), 18) == x && Rotl(Rotl(x, 18), 14) == x
  {
  }

  lemma RotlBack15(x: Word)
    ensures Rotl(Rotl(x, 15), 17) == x && Rotl(Rotl(x, 17), 15) == x
  {
  }

  lemma RotlBack16(x: Word)
    ensures Rotl(Rotl(x, 16), 16) == x && Rotl(Rotl(x, 16), 16) == x
  {
  }

  lemma RotlBack17(x: Word)
    ensures Rotl(Rotl(x, 17), 15) == x && Rotl(Rotl(x, 15), 17) == x
  {
  }

  lemma RotlBack20(x: Word)
    ensures Rotl(Rotl(x, 20), 12) == x && Rotl(Rotl(x, 12), 20) == x
  {
  }

  lemma RotlBack21(x: Word)
    ensures Rotl(Rotl(x, 21), 11) == x && Rotl(Rotl(x, 11), 21) == x
  {
  }

  lemma RotlBack22(x: Word)
    ensures Rotl(Rotl(x, 22), 10) == x && Rotl(Rotl(x, 10), 22) == x
  {
  }

  lemma RotlBack23(x: Word)
    ensures Rotl(Rotl(x, 23), 9) == x && Rotl(Rotl(x, 9), 23) == x
  {
  }

  lemma RotlBack(x: Word, s: bv32)
    requires IsAmount(s)
    ensures Rotl(Rotl(x, s), 32 - s) == x && Rotl(Rotl(x, 32 - s), s) == x
  {
    hide Rotl;
    match s
    case 4 => RotlBack4(x);
    case 5 => RotlBack5(x);
    case 6 => RotlBack6(x);
    case 7 => RotlBack7(x);
    case 9 => RotlBack9(x);
    case 10 => RotlBack10(x);
    case 11 => RotlBack11(x);
    case 12 => RotlBack12(x);
    case 14 => RotlBack14(x);
    case 15 => RotlBack15(x);
    case 16 => RotlBack16(x);
    case 17 => RotlBack17(x);
    case 20 => RotlBack20(x);
    case 21 => RotlBack21(x);
    case 22 => RotlBack22(x);
    case _ => RotlBack23(x);
  }

  lemma AmountsAre(i: nat)
    requires i < 64
    ensures IsAmount(Amount(i))
  {
  }

  /** The operation solved for its first register. */
  function Unstep(i: nat, r: Regs, m: Words): Regs
    requires i < 64
  {
    var sum := Rotl(Diff(r.b, r.c), 32 - Amount(i));
    var a := Diff(Diff(Diff(sum, T(i)), m[Index(i)]), Auxiliary(i, r.c, r.d, r.a));
    Regs(a, r.c, r.d, r.a)
  }

  lemma OperationBack(f: Word, a: Word, b: Word, x: Word, s: bv32, t: Word)
    requires IsAmount(s)
    ensures Diff(Diff(Diff(Rotl(Diff(Operation(f, a, b, x, s, t), b), 32 - s), t), x), f) == a
  {
    var u := Sum(Sum(a, f), x);
    SumCommutes(b, Rotl(Sum(u, t), s));
    SumAndDiff(Rotl(Sum(u, t), s), b);
    RotlBack(Sum(u, t), s);
    SumAndDiff(u, t);
    SumAndDiff(Sum(a, f), x);
    SumAndDiff(a, f);
    hide Sum, Diff, Rotl;
  }

  lemma OperationForth(f: Word, b': Word, b: Word, x: Word, s: bv32, t: Word)
    requires IsAmount(s)
    ensures Operation(f, Diff(Diff(Diff(Rotl(Diff(b', b), 32 - s), t), x), f), b, x, s, t) == b'
  {
    var w := Rotl(Diff(b', b), 32 - s);
    SumAndDiff(Diff(Diff(w, t), x), f);
    SumAndDiff(Diff(w, t), x);
    SumAndDiff(w, t);
    RotlBack(Diff(b', b), s);
    SumAndDiff(b', b);
    SumCommutes(b, Diff(b', b));
    hide Sum, Diff, Rotl;
  }

  lemma StepInvertible(i: nat, r: Regs, m: Words)
    requires i < 64
    ensures Unstep(i, Step(i, r, m), m) == r
    ensures Step(i, Unstep(i, r, m), m) == r
  {
    AmountsAre(i);
    hide Operation, Diff, Rotl, Sum, Auxiliary, T, Index, Amount, IsAmount;
    OperationBack(Auxiliary(i, r.b, r.c, r.d), r.a, r.b, m[Index(i)], Amount(i), T(i));
    OperationForth(Auxiliary(i, r.c, r.d, r.a), r.b, r.c, m[Index(i)], Amount(i), T(i));
  }

  /** The last `n` of the first `n` steps, undone in reverse order. */
  function Unsteps(r: Regs, m: Words, n: nat): Regs
    requires n <= 64
    decreases n
  {
    if n == 0 then r else Unsteps(Unstep(n - 1, r, m), m, n - 1)
  }

  /** For a fixed block the steps before the final additions are a bijection on the four-word state. */
  lemma {:induction false} StepsInvertible(r: Regs, m: Words, n: nat)
    requires n <= 64
    ensures Unsteps(Steps(r, m, n), m, n) == r
    ensures Steps(Unsteps(r, m, n), m, n) == r
    decreases n
  {
    if n > 0 {
      hide Step, Unstep;
      StepInvertible(n - 1, Steps(r, m, n - 1), m);
      StepsInvertible(r, m, n - 1);
      StepsInvertible(Unstep(n - 1, r, m), m, n - 1);
      StepInvertible(n - 1, r, m);
    }
  }
}
