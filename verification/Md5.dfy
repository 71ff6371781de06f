/** The incremental MD5 object and RFC 1321's digest of a whole message. */
module Md5 {
  import opened Common
  import opened Md5Compress

  // ------------------------------------------------------------------ the digest of a whole message

  /** The state after all complete blocks of `data`. */
  function Fold(r: Regs, data: seq<Byte>): Regs
    decreases |data|
  {
    if |data| < 64 then r else Fold(Compress(r, data[..64]), data[64..])
  }

  /** What follows the last complete block. */
  function Tail(data: seq<Byte>): seq<Byte> {
    data[|data| - |data| % 64..]
  }

  function Zeros(n: nat): (s: seq<Byte>)
    ensures |s| == n
  {
    seq(n, _ => 0)
  }

  /** The zero bytes that bring a message of `n` bytes and the byte 0x80 to 56 modulo 64. */
  function ZeroCount(n: nat): (z: nat)
    ensures z < 64 && (n + 1 + z) % 64 == 56
  {
    (119 - n % 64) % 64
  }

  /** The low eight bits. */
  function Low(v: nat): Byte {
    (v % 0x100) as Byte
  }

  /** Eight bytes, least significant first. */
  function LittleEndian(v: nat): (s: seq<Byte>)
    ensures |s| == 8
  {
    [Low(v), Low(v / 0x100), Low(v / 0x1_0000), Low(v / 0x100_0000), Low(v / 0x1_0000_0000),
     Low(v / 0x100_0000_0000), Low(v / 0x1_0000_0000_0000), Low(v / 0x100_0000_0000_0000)]
  }

  /** Sections 3.1 and 3.2: a one bit, zeros to 448 modulo 512 bits, then the length in bits modulo 2^64. */
  function Padded(m: seq<Byte>): seq<Byte> {
    m + [0x80] + Zeros(ZeroCount(|m|)) + LittleEndian(8 * |m| % TWO_TO_64)
  }

  function WordBytes(w: Word): (s: seq<Byte>)
    ensures |s| == 4
  {
    [(w.bits & 0xFF) as Byte, ((w.bits >> 8) & 0xFF) as Byte, ((w.bits >> 16) & 0xFF) as Byte,
     ((w.bits >> 24) & 0xFF) as Byte]
  }

  function RegsBytes(r: Regs): (s: seq<Byte>)
    ensures |s| == 16
  {
    WordBytes(r.a) + WordBytes(r.b) + WordBytes(r.c) + WordBytes(r.d)
  }

  /** The MD5 digest of a message. */
  function Digest(m: seq<Byte>): (s: seq<Byte>)
    ensures |s| == 16
  {
    RegsBytes(Fold(INIT, Padded(m)))
  }

  lemma {:induction false} FoldConcat(r: Regs, a: seq<Byte>, b: seq<Byte>)
    requires |a| % 64 == 0
    ensures Fold(r, a + b) == Fold(Fold(r, a), b)
    decreases |a|
  {
    hide Compress;
    if |a| < 64 {
      assert a + b == b;
    } else {
      assert (a + b)[..64] == a[..64] && (a + b)[64..] == a[64..] + b;
      FoldConcat(Compress(r, a[..64]), a[64..], b);
    }
  }

  /** A tail shorter than a block does not show in the state. */
  lemma FoldDropsTail(r: Regs, a: seq<Byte>, b: seq<Byte>)
    requires |a| % 64 == 0 && |b| < 64
    ensures Fold(r, a + b) == Fold(r, a)
    ensures Tail(a + b) == b && |a + b| % 64 == |b|
  {
    hide Compress;
    FoldConcat(r, a, b);
    assert |a + b| % 64 == |b|;
  }

  lemma TailSplits(r: Regs, m: seq<Byte>) returns (head: seq<Byte>)
    ensures m == head + Tail(m) && |head| % 64 == 0 && |Tail(m)| == |m| % 64
    ensures Fold(r, m) == Fold(r, head)
  {
    hide Fold;
    head := m[..|m| - |m| % 64];
    FoldDropsTail(r, head, Tail(m));
  }

  lemma FoldBlock(r: Regs, a: seq<Byte>, block: Block)
    requires |a| % 64 == 0
    ensures Fold(r, a + block) == Compress(Fold(r, a), block)
    ensures Tail(a + block) == [] && |a + block| % 64 == 0
  {
    hide Compress;
    FoldConcat(r, a, block);
    assert block[..64] == block && block[64..] == [];
    assert Fold(Fold(r, a), block) == Fold(Compress(Fold(r, a), block), []);
  }

  // ------------------------------------------------------------------ the object

  method Round1(now: Regs, m: Words, ghost start: Regs) returns (next: Regs)
    requires now == Steps(start, m, 0)
    ensures next == Steps(start, m, 16)
  {
    hide FF, GG, HH, II, Steps, FourSteps;
    ghost var r := now;
    var a, b, c, d := now.a, now.b, now.c, now.d;
    a := FF(a, b, c, d, m[0], 7, Word(0xD76AA478)); d := FF(d, a, b, c, m[1], 12, Word(0xE8C7B756));
    c := FF(c, d, a, b, m[2], 17, Word(0x242070DB)); b := FF(b, c, d, a, m[3], 22, Word(0xC1BDCEEE));
    FFQuad(0, r, m);
    StepsByFour(start, m, 0);
    assert Regs(a, b, c, d) == Steps(start, m, 4);
    r := Regs(a, b, c, d);
    a := FF(a, b, c, d, m[4], 7, Word(0xF57C0FAF)); d := FF(d, a, b, c, m[5], 12, Word(0x4787C62A));
    c := FF(c, d, a, b, m[6], 17, Word(0xA8304613)); b := FF(b, c, d, a, m[7], 22, Word(0xFD469501));
    FFQuad(4, r, m);
    StepsByFour(start, m, 4);
    assert Regs(a, b, c, d) == Steps(start, m, 8);
    r := Regs(a, b, c, d);
    a := FF(a, b, c, d, m[8], 7, Word(0x698098D8)); d := FF(d, a, b, c, m[9], 12, Word(0x8B44F7AF));
    c := FF(c, d, a, b, m[10], 17, Word(0xFFFF5BB1)); b := FF(b, c, d, a, m[11], 22, Word(0x895CD7BE));
    FFQuad(8, r, m);
    StepsByFour(start, m, 8);
    assert Regs(a, b, c, d) == Steps(start, m, 12);
    r := Regs(a, b, c, d);
    a := FF(a, b, c, d, m[12], 7, Word(0x6B901122)); d := FF(d, a, b, c, m[13], 12, Word(0xFD987193));
    c := FF(c, d, a, b, m[14], 17, Word(0xA679438E)); b := FF(b, c, d, a, m[15], 22, Word(0x49B40821));
    FFQuad(12, r, m);
    StepsByFour(start, m, 12);
    assert Regs(a, b, c, d) == Steps(start, m, 16);
    next := Regs(a, b, c, d);
  }

  method Round2(now: Regs, m: Words, ghost start: Regs) returns (next: Regs)
    requires now == Steps(start, m, 16)
    ensures next == Steps(start, m, 32)
  {
    hide FF, GG, HH, II, Steps, FourSteps;
    ghost var r := now;
    var a, b, c, d := now.a, now.b, now.c, now.d;
    a := GG(a, b, c, d, m[1], 5, Word(0xF61E2562)); d := GG(d, a, b, c, m[6], 9, Word(0xC040B340));
    c := GG(c, d, a, b, m[11], 14, Word(0x265E5A51)); b := GG(b, c, d, a, m[0], 20, Word(0xE9B6C7AA));
    GGQuad(16, r, m);
    StepsByFour(start, m, 16);
    assert Regs(a, b, c, d) == Steps(start, m, 20);
    r := Regs(a, b, c, d);
    a := GG(a, b, c, d, m[5], 5, Word(0xD62F105D)); d := GG(d, a, b, c, m[10], 9, Word(0x02441453));
    c := GG(c, d, a, b, m[15], 14, Word(0xD8A1E681)); b := GG(b, c, d, a, m[4], 20, Word(0xE7D3FBC8));
    GGQuad(20, r, m);
    StepsByFour(start, m, 20);
    assert Regs(a, b, c, d) == Steps(start, m, 24);
    r := Regs(a, b, c, d);
    a := GG(a, b, c, d, m[9], 5, Word(0x21E1CDE6)); d := GG(d, a, b, c, m[14], 9, Word(0xC33707D6));
    c := GG(c, d, a, b, m[3], 14, Word(0xF4D50D87)); b := GG(b, c, d, a, m[8], 20, Word(0x455A14ED));
    GGQuad(24, r, m);
    StepsByFour(start, m, 24);
    assert Regs(a, b, c, d) == Steps(start, m, 28);
    r := Regs(a, b, c, d);
    a := GG(a, b, c, d, m[13], 5, Word(0xA9E3E905)); d := GG(d, a, b, c, m[2], 9, Word(0xFCEFA3F8));
    c := GG(c, d, a, b, m[7], 14, Word(0x676F02D9)); b := GG(b, c, d, a, m[12], 20, Word(0x8D2A4C8A));
    GGQuad(28, r, m);
    StepsByFour(start, m, 28);
    assert Regs(a, b, c, d) == Steps(start, m, 32);
    next := Regs(a, b, c, d);
  }

  method Round3(now: Regs, m: Words, ghost start: Regs) returns (next: Regs)
    requires now == Steps(start, m, 32)
    ensures next == Steps(start, m, 48)
  {
    hide FF, GG, HH, II, Steps, FourSteps;
    ghost var r := now;
    var a, b, c, d := now.a, now.b, now.c, now.d;
    a := HH(a, b, c, d, m[5], 4, Word(0xFFFA3942)); d := HH(d, a, b, c, m[8], 11, Word(0x8771F681));
    c := HH(c, d, a, b, m[11], 16, Word(0x6D9D6122)); b := HH(b, c, d, a, m[14], 23, Word(0xFDE5380C));
    HHQuad(32, r, m);
    StepsByFour(start, m, 32);
    assert Regs(a, b, c, d) == Steps(start, m, 36);
    r := Regs(a, b, c, d);
    a := HH(a, b, c, d, m[1], 4, Word(0xA4BEEA44)); d := HH(d, a, b, c, m[4], 11, Word(0x4BDECFA9));
    c := HH(c, d, a, b, m[7], 16, Word(0xF6BB4B60)); b := HH(b, c, d, a, m[10], 23, Word(0xBEBFBC70));
    HHQuad(36, r, m);
    StepsByFour(start, m, 36);
    assert Regs(a, b, c, d) == Steps(start, m, 40);
    r := Regs(a, b, c, d);
    a := HH(a, b, c, d, m[13], 4, Word(0x289B7EC6)); d := HH(d, a, b, c, m[0], 11, Word(0xEAA127FA));
    c := HH(c, d, a, b, m[3], 16, Word(0xD4EF3085)); b := HH(b, c, d, a, m[6], 23, Word(0x04881D05));
    HHQuad(40, r, m);
    StepsByFour(start, m, 40);
    assert Regs(a, b, c, d) == Steps(start, m, 44);
    r := Regs(a, b, c, d);
    a := HH(a, b, c, d, m[9], 4, Word(0xD9D4D039)); d := HH(d, a, b, c, m[12], 11, Word(0xE6DB99E5));
    c := HH(c, d, a, b, m[15], 16, Word(0x1FA27CF8)); b := HH(b, c, d, a, m[2], 23, Word(0xC4AC5665));
    HHQuad(44, r, m);
    StepsByFour(start, m, 44);
    assert Regs(a, b, c, d) == Steps(start, m, 48);
    next := Regs(a, b, c, d);
  }

  method Round4(now: Regs, m: Words, ghost start: Regs) returns (next: Regs)
    requires now == Steps(start, m, 48)
    ensures next == Steps(start, m, 64)
  {
    hide FF, GG, HH, II, Steps, FourSteps;
    ghost var r := now;
    var a, b, c, d := now.a, now.b, now.c, now.d;
    a := II(a, b, c, d, m[0], 6, Word(0xF4292244)); d := II(d, a, b, c, m[7], 10, Word(0x432AFF97));
    c := II(c, d, a, b, m[14], 15, Word(0xAB9423A7)); b := II(b, c, d, a, m[5], 21, Word(0xFC93A039));
    IIQuad(48, r, m);
    StepsByFour(start, m, 48);
    assert Regs(a, b, c, d) == Steps(start, m, 52);
    r := Regs(a, b, c, d);
    a := II(a, b, c, d, m[12], 6, Word(0x655B59C3)); d := II(d, a, b, c, m[3], 10, Word(0x8F0CCC92));
    c := II(c, d, a, b, m[10], 15, Word(0xFFEFF47D)); b := II(b, c, d, a, m[1], 21, Word(0x85845DD1));
    IIQuad(52, r, m);
    StepsByFour(start, m, 52);
    assert Regs(a, b, c, d) == Steps(start, m, 56);
    r := Regs(a, b, c, d);
    a := II(a, b, c, d, m[8], 6, Word(0x6FA87E4F)); d := II(d, a, b, c, m[15], 10, Word(0xFE2CE6E0));
    c := II(c, d, a, b, m[6], 15, Word(0xA3014314)); b := II(b, c, d, a, m[13], 21, Word(0x4E0811A1));
    IIQuad(56, r, m);
    StepsByFour(start, m, 56);
    assert Regs(a, b, c, d) == Steps(start, m, 60);
    r := Regs(a, b, c, d);
    a := II(a, b, c, d, m[4], 6, Word(0xF7537E82)); d := II(d, a, b, c, m[11], 10, Word(0xBD3AF235));
    c := II(c, d, a, b, m[2], 15, Word(0x2AD7D2BB)); b := II(b, c, d, a, m[9], 21, Word(0xEB86D391));
    IIQuad(60, r, m);
    StepsByFour(start, m, 60);
    assert Regs(a, b, c, d) == Steps(start, m, 64);
    next := Regs(a, b, c, d);
  }

  class Md5 {
    var state: Regs
    var count: nat
    const buffer: array<Byte>
    /** Every byte taken in since the last reset. */
    ghost var msg: seq<Byte>

    /** The state is the fold over the complete blocks, the buffer starts with the rest, and the counter has wrapped. */
    ghost predicate Valid()
      reads this, buffer
    {
      buffer.Length == 64
      && count == |msg| % TWO_TO_64
      && state == Fold(INIT, msg)
      && buffer[..|msg| % 64] == Tail(msg)
    }

    constructor ()
      ensures Valid() && fresh(buffer) && msg == []
    {
      buffer := new Byte[64](_ => 0);
      state := INIT;
      count := 0;
      msg := [];
    }

    method Reset()
      requires Valid()
      modifies this, buffer
      ensures Valid() && msg == []
    {
      state := INIT;
      count := 0;
      forall i | 0 <= i < 64 {
        buffer[i] := 0;
      }
      msg := [];
    }

    method Transform(block: Block)
      modifies this`state
      ensures state == Compress(old(state), block)
    {
      var m := WordsOf(block);
      var r := Round1(state, m, state);
      r := Round2(r, m, state);
      r := Round3(r, m, state);
      r := Round4(r, m, state);
      state := Plus(state, r);
    }

    /** `memcpy` into the buffer. */
    method CopyIn(at: nat, bytes: seq<Byte>)
      requires buffer.Length == 64 && at + |bytes| <= 64
      modifies buffer
      ensures buffer[..at + |bytes|] == old(buffer[..at]) + bytes
    {
      forall i | 0 <= i < |bytes| {
        buffer[at + i] := bytes[i];
      }
    }

    method Update(data: seq<Byte>)
      requires Valid()
      modifies this, buffer
      ensures Valid() && msg == old(msg) + data
    {
      hide Compress, Fold, Tail;
      WrappedCounter(|msg|, |data|);
      var index := count % 64;
      ghost var tail, all := Tail(msg), msg + data;
      ghost var head := TailSplits(INIT, msg);
      count := (count + |data|) % TWO_TO_64;
      msg := all;
      var rest := data;
      if index != 0 {
        var part := 64 - index;
        if |rest| >= part {
          CopyIn(index, rest[..part]);
          assert buffer[..] == buffer[..64] == tail + data[..part];
          Transform(buffer[..]);
          FoldBlock(INIT, head, tail + data[..part]);
          head := head + (tail + data[..part]);
          rest := rest[part..];
          assert all == head + rest;
        } else {
          CopyIn(index, rest);
          FoldDropsTail(INIT, head, tail + data);
          assert all == head + (tail + data);
          return;
        }
      }
      while |rest| >= 64
        invariant all == head + rest && |head| % 64 == 0 && state == Fold(INIT, head)
        invariant msg == all && count == |all| % TWO_TO_64
      {
        Transform(rest[..64]);
        FoldBlock(INIT, head, rest[..64]);
        assert all == (head + rest[..64]) + rest[64..];
        head := head + rest[..64];
        rest := rest[64..];
      }
      if |rest| > 0 {
        CopyIn(0, rest);
      }
      FoldDropsTail(INIT, head, rest);
    }

    /** Pads, and returns the digest of what was taken in before; the padding stays in the object. */
    method Finalize() returns (digest: seq<Byte>)
      requires Valid()
      modifies this, buffer
      ensures Valid() && msg == Padded(old(msg))
      ensures digest == Digest(old(msg))
    {
      hide LittleEndian, Fold, WordBytes, Zeros, ZeroCount;
      var padding: seq<Byte> := [0x80] + Zeros(63);
      var index := count % 64;
      var padLen := if index < 56 then 56 - index else 120 - index;
      var bits := count * 8 % TWO_TO_64;
      PaddingArithmetic(|msg|);
      PaddingText(msg, padLen);
      Update(padding[..padLen]);
      Update(LittleEndian(bits));
      digest := [];
      for i := 0 to 4
        invariant digest == RegsBytes(state)[..4 * i]
      {
        var word := if i == 0 then state.a else if i == 1 then state.b else if i == 2 then state.c else state.d;
        digest := digest + WordBytes(word);
      }
    }
  }

  /** The wrapped counter still says where the buffer stands, and still adds up. */
  lemma WrappedCounter(n: nat, len: nat)
    ensures n % TWO_TO_64 % 64 == n % 64
    ensures (n % TWO_TO_64 + len) % TWO_TO_64 == (n + len) % TWO_TO_64
  {
    var q := n / TWO_TO_64;
    assert n == TWO_TO_64 * q + n % TWO_TO_64;
    AddMultiple(n % TWO_TO_64 + len, q);
  }

  lemma AddMultiple(a: nat, q: nat)
    ensures (TWO_TO_64 * q + a) % TWO_TO_64 == a % TWO_TO_64
  {
  }

  lemma PaddingText(m: seq<Byte>, padLen: nat)
    requires padLen == 1 + ZeroCount(|m|) <= 64
    ensures m + ([0x80] + Zeros(63))[..padLen] + LittleEndian(8 * |m| % TWO_TO_64) == Padded(m)
  {
    assert ([0x80] + Zeros(63))[..padLen] == [0x80] + Zeros(ZeroCount(|m|));
    assert m + ([0x80] + Zeros(ZeroCount(|m|))) == m + [0x80] + Zeros(ZeroCount(|m|));
  }

  lemma WrappedBits(n: nat)
    ensures n % TWO_TO_64 * 8 % TWO_TO_64 == 8 * n % TWO_TO_64
  {
    var q := n / TWO_TO_64;
    assert n == TWO_TO_64 * q + n % TWO_TO_64;
    AddMultiple(n % TWO_TO_64 * 8, 8 * q);
  }

  function PadLength(index: nat): nat
    requires index < 64
  {
    if index < 56 then 56 - index else 120 - index
  }

  lemma PadLengthIs(n: nat)
    ensures 1 <= PadLength(n % 64) <= 64 && PadLength(n % 64) == 1 + ZeroCount(n)
    ensures (n + PadLength(n % 64) + 8) % 64 == 0
  {
    assert n == 64 * (n / 64) + n % 64;
  }

  /** The padding length in the code is the standard's, for a counter that may have wrapped, and it ends on a block. */
  lemma PaddingArithmetic(n: nat)
    ensures var index := n % TWO_TO_64 % 64;
      1 <= PadLength(index) <= 64 && PadLength(index) == 1 + ZeroCount(n) && (n + PadLength(index) + 8) % 64 == 0
      && n % TWO_TO_64 * 8 % TWO_TO_64 == 8 * n % TWO_TO_64
  {
    WrappedCounter(n, 0);
    WrappedBits(n);
    PadLengthIs(n);
    hide PadLength, ZeroCount;
  }
}
