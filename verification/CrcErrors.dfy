/** What the CRC detects, at any message length. */
module CrcErrors {
  import opened Common
  import opened Crc16
  import opened CrcOrder

  /** The positions at which two equally long bit strings differ. */
  function Differ(v: seq<bool>, w: seq<bool>): (d: seq<bool>)
    requires |v| == |w|
    ensures |d| == |v|
    ensures forall i :: 0 <= i < |d| ==> d[i] == (v[i] != w[i])
  {
    if v == [] then [] else [v[0] != w[0]] + Differ(v[1..], w[1..])
  }

  ghost predicate Blank(w: seq<bool>) {
    forall i :: 0 <= i < |w| ==> !w[i]
  }

  lemma PlusCommutes(a: bv16, b: bv16)
    ensures Plus(a, b) == Plus(b, a)
  {
    assert a ^ b == b ^ a;
  }

  lemma PlusShuffle(s: bv16, t: bv16, x: bv16, y: bv16)
    ensures Plus(Plus(s, t), Plus(x, y)) == Plus(Plus(s, x), Plus(t, y))
  {
    PlusAssociative(Plus(s, t), x, y);
    PlusAssociative(s, t, x);
    PlusCommutes(t, x);
    PlusAssociative(s, x, t);
    PlusAssociative(Plus(s, x), t, y);
    hide Plus;
  }

  lemma TopOfDifference(a: bool, b: bool)
    ensures Top(a != b) == Plus(Top(a), Top(b))
  {
  }

  lemma PlusIsZero(a: bv16, b: bv16)
    ensures Plus(a, b) == 0 <==> a == b
    ensures Plus(a, 0) == a
  {
    if a == b {
      assert Plus(a, a) == 0;
    } else {
      XorNonzero(a, b);
    }
  }

  lemma XorNonzero(a: bv16, b: bv16)
    requires a != b
    ensures a ^ b != 0
  {
  }

  lemma MulXOfZero(n: nat)
    ensures MulXn(0, n) == 0
  {
    assert MulX(0) == 0;
  }

  /** The register is additive in its start value and its message together. */
  lemma {:induction false} Superpose(s: bv16, t: bv16, v: seq<bool>, w: seq<bool>)
    requires |v| == |w|
    ensures CrcBits(Plus(s, t), Differ(v, w)) == Plus(CrcBits(s, v), CrcBits(t, w))
    decreases |v|
  {
    if v != [] {
      TopOfDifference(v[0], w[0]);
      PlusShuffle(s, t, Top(v[0]), Top(w[0]));
      MulXLinear(Plus(s, Top(v[0])), Plus(t, Top(w[0])));
      assert Differ(v, w)[1..] == Differ(v[1..], w[1..]);
      hide MulX, Plus, Top;
      Superpose(AddBit(s, v[0]), AddBit(t, w[0]), v[1..], w[1..]);
    }
  }

  /** An error goes undetected exactly when its pattern, read from the zero register, leaves zero. */
  lemma UndetectedPattern(a: seq<Byte>, b: seq<Byte>)
    requires |a| == |b|
    ensures Crc(a) == Crc(b) <==> CrcBits(0, Differ(Bits(a), Bits(b))) == 0
  {
    CrcIsOverBits(INIT, a);
    CrcIsOverBits(INIT, b);
    Superpose(INIT, INIT, Bits(a), Bits(b));
    PlusIsZero(INIT, INIT);
    PlusIsZero(Crc(a), Crc(b));
    hide Plus;
  }

  lemma {:induction false} CrcOfBlank(s: bv16, w: seq<bool>)
    requires Blank(w)
    ensures CrcBits(s, w) == MulXn(s, |w|)
    decreases |w|
  {
    if w != [] {
      PlusIsZero(s, 0);
      CrcOfBlank(MulX(s), w[1..]);
    }
  }

  lemma NonzeroStays(s: bv16, n: nat)
    requires s != 0
    ensures MulXn(s, n) != 0
  {
    MulXOfZero(n);
    if MulXn(s, n) == 0 {
      MulXnInjective(s, 0, n);
    }
  }

  // ------------------------------------------------------------------ bursts

  lemma HalfOfEven(v: bv16)
    requires v & 1 == 0 && v != 0
    ensures Half(v) != 0
  {
  }

  lemma TopSurvives(v: bv16)
    ensures Plus(0x8000, Half(v)) != 0
    ensures Plus(0, v) == v
  {
  }

  lemma {:induction false} WindowNonzero(w: seq<bool>)
    requires |w| <= 16 && !Blank(w)
    ensures Window(w) != 0
    decreases |w|
  {
    var rest := w[1..];
    TopSurvives(Window(rest));
    TopSurvives(Half(Window(rest)));
    if !w[0] {
      WindowNonzero(rest);
      WindowEven(rest);
      HalfOfEven(Window(rest));
    }
  }

  /** A pattern confined to its middle part leaves the register that part leaves, times a power of x. */
  lemma BlankAround(u: seq<bool>, w: seq<bool>, v: seq<bool>)
    requires Blank(u) && Blank(v)
    ensures CrcBits(0, u + w + v) == MulXn(CrcBits(0, w), |v|)
  {
    CrcBitsConcat(0, u + w, v);
    CrcBitsConcat(0, u, w);
    CrcOfBlank(0, u);
    MulXOfZero(|u|);
    CrcOfBlank(CrcBits(0, w), v);
  }

  lemma ShortMark(w: seq<bool>)
    requires |w| <= 16 && !Blank(w)
    ensures CrcBits(0, w) != 0
  {
    AbsorbWindow(0, w);
    TopSurvives(Window(w));
    WindowNonzero(w);
    NonzeroStays(Window(w), |w|);
  }

  lemma BurstSplits(d: seq<bool>, p: nat) returns (u: seq<bool>, w: seq<bool>, v: seq<bool>)
    requires !Blank(d)
    requires forall i :: 0 <= i < |d| && d[i] ==> p <= i < p + 16
    ensures d == u + w + v && Blank(u) && Blank(v) && !Blank(w) && |w| <= 16
  {
    var k :| 0 <= k < |d| && d[k];
    var hi := if p + 16 <= |d| then p + 16 else |d|;
    u, w, v := d[..p], d[p..hi], d[hi..];
    assert w[k - p];
  }

  lemma BurstLeavesMark(d: seq<bool>, p: nat)
    requires !Blank(d)
    requires forall i :: 0 <= i < |d| && d[i] ==> p <= i < p + 16
    ensures CrcBits(0, d) != 0
  {
    hide CrcBits, MulXn, Blank;
    var u, w, v := BurstSplits(d, p);
    BlankAround(u, w, v);
    ShortMark(w);
    NonzeroStays(CrcBits(0, w), |v|);
  }

  lemma {:induction false} BitsInjective(a: seq<Byte>, b: seq<Byte>)
    requires Bits(a) == Bits(b)
    ensures a == b
    decreases |a|
  {
    assert |Bits(a)| == |Bits(b)|;
    if a != [] {
      var v, w := ByteBits(a[0]), ByteBits(b[0]);
      assert Bits(a)[..8] == v && Bits(b)[..8] == w;
      assert Bits(a)[8..] == Bits(a[1..]) && Bits(b)[8..] == Bits(b[1..]);
      WindowOfByte(a[0]);
      WindowOfByte(b[0]);
      ByteFromWindow(a[0], b[0]);
      BitsInjective(a[1..], b[1..]);
    }
  }

  lemma ByteFromWindow(a: Byte, b: Byte)
    requires (a as bv16) << 8 == (b as bv16) << 8
    ensures a == b
  {
  }

  /** Burst detection: two messages of any one length whose difference lies within sixteen consecutive bits never
      share a checksum. */
  lemma BurstDetected(a: seq<Byte>, b: seq<Byte>, p: nat)
    requires |a| == |b| && a != b
    requires forall i :: 0 <= i < 8 * |a| && Bits(a)[i] != Bits(b)[i] ==> p <= i < p + 16
    ensures Crc(a) != Crc(b)
  {
    var d := Differ(Bits(a), Bits(b));
    if Blank(d) {
      assert forall i :: 0 <= i < |d| ==> d[i] == (Bits(a)[i] != Bits(b)[i]);
      BitsInjective(a, b);
    }
    BurstLeavesMark(d, p);
    UndetectedPattern(a, b);
  }

  // ------------------------------------------------------------------ two flipped bits

  /** From the zero register, a bit set and one set `g` places later leave zero exactly when x^g is 1. */
  lemma PairOfBits(w: seq<bool>)
    requires 2 <= |w| && w[0] && w[|w| - 1]
    requires forall i :: 0 < i < |w| - 1 ==> !w[i]
    ensures CrcBits(0, w) == 0 <==> (|w| - 1) % ORDER == 0
  {
    var g := |w| - 1;
    assert w == w[..g] + [true];
    CrcBitsConcat(0, w[..g], [true]);
    CrcOfBlank(AddBit(0, true), w[..g][1..]);
    TopSurvives(0x8000);
    var s := CrcBits(0, w[..g]);
    assert s == MulXn(0x8000, g);
    PlusIsZero(s, 0x8000);
    assert CrcBits(0, w) == MulX(Plus(s, 0x8000)) == MulXn(Plus(s, 0x8000), 1);
    MulXOfZero(1);
    if s != 0x8000 {
      NonzeroStays(Plus(s, 0x8000), 1);
    }
    TopPeriod(g);
  }

  lemma TwoBitPattern(d: seq<bool>, p: nat, q: nat)
    requires p < q < |d|
    requires forall i :: 0 <= i < |d| ==> d[i] == (i == p || i == q)
    ensures CrcBits(0, d) == 0 <==> (q - p) % ORDER == 0
  {
    var w := d[p..q + 1];
    assert d == d[..p] + w + d[q + 1..];
    BlankAround(d[..p], w, d[q + 1..]);
    PairOfBits(w);
    MulXOfZero(|d| - q - 1);
    if CrcBits(0, w) != 0 {
      NonzeroStays(CrcBits(0, w), |d| - q - 1);
    }
  }

  /** Two flipped bits go undetected exactly when their distance is a multiple of 32767. */
  lemma TwoBitErrors(a: seq<Byte>, b: seq<Byte>, p: nat, q: nat)
    requires |a| == |b| && p < q < 8 * |a|
    requires forall i :: 0 <= i < 8 * |a| ==> (Bits(a)[i] != Bits(b)[i] <==> i == p || i == q)
    ensures Crc(a) == Crc(b) <==> (q - p) % ORDER == 0
  {
    var d := Differ(Bits(a), Bits(b));
    assert forall i :: 0 <= i < |d| ==> d[i] == (Bits(a)[i] != Bits(b)[i]);
    TwoBitPattern(d, p, q);
    UndetectedPattern(a, b);
  }

  // ------------------------------------------------------------------ residue

  lemma {:induction false} CrcFromConcat(s: bv16, a: seq<Byte>, b: seq<Byte>)
    ensures CrcFrom(s, a + b) == CrcFrom(CrcFrom(s, a), b)
    decreases |a|
  {
    if a == [] {
      assert a + b == b;
    } else {
      assert (a + b)[1..] == a[1..] + b;
      CrcFromConcat(AddByte(s, a[0]), a[1..], b);
    }
  }

  /** Eight turns on a register whose upper half is empty never feed back. */
  lemma EightTurns(v: bv16)
    requires v & 0xFF00 == 0
    ensures MulXn(v, 8) == v << 8
  {
    TurnLow(v);
    TurnLow(v << 1);
    TurnLow(v << 2);
    TurnLow(v << 3);
    TurnLow(v << 4);
    TurnLow(v << 5);
    TurnLow(v << 6);
    TurnLow(v << 7);
    hide MulX;
    assert MulXn(v, 8) == MulXn(v << 2, 6);
    assert MulXn(v << 2, 6) == MulXn(v << 4, 4);
    assert MulXn(v << 4, 4) == MulXn(v << 6, 2);
  }

  function HighByte(c: bv16): Byte {
    (c >> 8) as Byte
  }

  function LowByte(c: bv16): Byte {
    (c & 0xFF) as Byte
  }

  lemma HalvesCancel(c: bv16)
    ensures Plus(c, (HighByte(c) as bv16) << 8) == c & 0xFF
    ensures Plus((c & 0xFF) << 8, (LowByte(c) as bv16) << 8) == 0
  {
  }

  lemma FeedDigest(c: bv16)
    ensures AddByte(c, HighByte(c)) == (c & 0xFF) << 8
    ensures AddByte((c & 0xFF) << 8, LowByte(c)) == 0
  {
    HalvesCancel(c);
    EightTurns(c & 0xFF);
    MulXOfZero(8);
    hide HighByte, LowByte, Plus, MulX, MulXn;
  }

  /** A message followed by its own digest, high byte first, drives the register to zero. */
  lemma ResidueIsZero(data: seq<Byte>)
    ensures Crc(data + [HighByte(Crc(data)), LowByte(Crc(data))]) == 0
  {
    var c := Crc(data);
    var tail := [HighByte(c), LowByte(c)];
    FeedDigest(c);
    hide HighByte, LowByte, AddByte;
    CrcFromConcat(INIT, data, tail);
    var d := AddByte(c, tail[0]);
    assert tail[1..] == [LowByte(c)] && [LowByte(c)][1..] == [];
    assert CrcFrom(d, [LowByte(c)]) == CrcFrom(AddByte(d, LowByte(c)), []);
  }
}
