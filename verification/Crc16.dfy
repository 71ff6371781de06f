/** CRC16-CCITT (polynomial 0x1021, initial value 0xFFFF, no final xor) and its algebra over bits. */
module Crc16 {
  import opened Common

  const INIT: bv16 := 0xFFFF

  /** Addition over GF(2), of registers as of remainders. */
  function Plus(a: bv16, b: bv16): bv16 {
    a ^ b
  }

  /** Multiplication by x modulo x^16 + x^12 + x^5 + 1: the coefficient that leaves at the top comes back at
      x^12, x^5 and 1. */
  function MulX(s: bv16): bv16 {
    (s << 1) ^ (s >> 15) ^ ((s >> 15) << 5) ^ ((s >> 15) << 12)
  }

  /** The taken branch of the inner loop. */
  lemma TurnHigh(s: bv16)
    requires s & 0x8000 != 0
    ensures (s << 1) ^ 0x1021 == MulX(s)
  {
    assert s >> 15 == 1;
  }

  /** Its other branch. */
  lemma TurnLow(s: bv16)
    requires s & 0x8000 == 0
    ensures s << 1 == MulX(s)
  {
    assert s >> 15 == 0;
  }

  /** `n` turns of the inner loop. */
  function MulXn(s: bv16, n: nat): bv16
    decreases n
  {
    if n == 0 then s else MulXn(MulX(s), n - 1)
  }

  function AddByte(s: bv16, b: Byte): bv16 {
    MulXn(Plus(s, (b as bv16) << 8), 8)
  }

  function CrcFrom(s: bv16, data: seq<Byte>): bv16
    decreases |data|
  {
    if data == [] then s else CrcFrom(AddByte(s, data[0]), data[1..])
  }

  function Crc(data: seq<Byte>): bv16 {
    CrcFrom(INIT, data)
  }

  /** The running checksum object. */
  class Crc16 {
    var crc: bv16

    constructor ()
      ensures crc == INIT
    {
      crc := 0xFFFF;
    }

    method Reset()
      modifies this
      ensures crc == INIT
    {
      crc := 0xFFFF;
    }

    method Update(data: seq<Byte>)
      modifies this
      ensures crc == CrcFrom(old(crc), data)
    {
      hide MulX;
      var i := 0;
      assert data[0..] == data;
      while i < |data|
        invariant 0 <= i <= |data|
        invariant CrcFrom(crc, data[i..]) == CrcFrom(old(crc), data)
      {
        ghost var before := crc;
        crc := crc ^ ((data[i] as bv16) << 8);
        var j := 0;
        while j < 8
          invariant 0 <= j <= 8
          invariant MulXn(crc, 8 - j) == AddByte(before, data[i])
        {
          if crc & 0x8000 != 0 {
            TurnHigh(crc);
            crc := (crc << 1) ^ 0x1021;
          } else {
            TurnLow(crc);
            crc := crc << 1;
          }
          j := j + 1;
        }
        assert data[i..][1..] == data[i + 1..];
        i := i + 1;
      }
    }
  }

  /** `crc16_compute`. */
  method Compute(data: seq<Byte>) returns (digest: bv16)
    ensures digest == Crc(data)
  {
    var crc := new Crc16();
    crc.Update(data);
    digest := crc.crc;
  }

  // ------------------------------------------------------------------ the client's form

  /** The part of an integer that survives the mask. */
  function Low16(c: bv32): bv16 {
    (c & 0xFFFF) as bv16
  }

  /** One turn of the client's inner loop, which does not mask. */
  function ClientTurn(c: bv32): bv32 {
    if c & 0x8000 != 0 then (c << 1) ^ 0x1021 else c << 1
  }

  function TakeByte(c: bv32, b: Byte): bv32 {
    c ^ ((b as bv32) << 8)
  }

  lemma ClientTurnHigh(c: bv32)
    requires c & 0x8000 != 0
    ensures Low16((c << 1) ^ 0x1021) == MulX(Low16(c))
  {
  }

  lemma ClientTurnLow(c: bv32)
    requires c & 0x8000 == 0
    ensures Low16(c << 1) == MulX(Low16(c))
  {
  }

  /** Masking later makes no difference: a turn of the whole integer is a turn of its low sixteen bits. */
  lemma MaskLater(c: bv32)
    ensures Low16(ClientTurn(c)) == MulX(Low16(c))
  {
    if c & 0x8000 != 0 {
      ClientTurnHigh(c);
      hide Low16, MulX;
    } else {
      ClientTurnLow(c);
      hide Low16, MulX;
    }
  }

  predicate Within(c: bv32, mask: bv32) {
    c & !mask == 0
  }

  /** Room for sixteen bits and `j` shifts. */
  function Room(j: nat): bv32
    requires j <= 8
  {
    if j == 0 then 0xFFFF else (Room(j - 1) << 1) | 1
  }

  lemma RoomIs(j: nat)
    requires j <= 8
    ensures Within(0xFFFF, Room(j)) && Within(Room(j), 0xFF_FFFF)
  {
    assert Room(4) == 0xF_FFFF;
    assert Room(8) == 0xFF_FFFF;
  }

  lemma TurnWithin(c: bv32, room: bv32)
    requires Within(c, room) && Within(0xFFFF, room) && Within(room, 0xFF_FFFF)
    ensures (c << 1) >> 1 == c && Within(ClientTurn(c), (room << 1) | 1)
  {
  }

  /** No turn loses a bit, so 32 bits do what an unbounded integer does. */
  lemma TurnFits(c: bv32, j: nat)
    requires j < 8 && Within(c, Room(j))
    ensures (c << 1) >> 1 == c && Within(ClientTurn(c), Room(j + 1))
  {
    hide Within, ClientTurn;
    RoomIs(j);
    TurnWithin(c, Room(j));
  }

  lemma TakeByteIs(c: bv32, b: Byte)
    requires Within(c, 0xFFFF)
    ensures Within(TakeByte(c, b), 0xFFFF) && Low16(TakeByte(c, b)) == Plus(Low16(c), (b as bv16) << 8)
  {
  }

  lemma MaskNow(c: bv32)
    ensures Low16(c & 0xFFFF) == Low16(c) && Within(c & 0xFFFF, 0xFFFF)
  {
  }

  lemma LowIsAll(c: bv32)
    requires Within(c, 0xFFFF)
    ensures c == Low16(c) as bv32
  {
  }

  lemma ClientStart()
    ensures Within(0xFFFF, 0xFFFF) && Low16(0xFFFF) == INIT && Room(0) == 0xFFFF
  {
  }

  /** The body of the client's inner loop. */
  method Turned(crc: bv32) returns (next: bv32)
    ensures next == ClientTurn(crc)
  {
    if crc & 0x8000 != 0 {
      next := (crc << 1) ^ 0x1021;
    } else {
      next := crc << 1;
    }
  }

  /** The body of the client's outer loop. */
  method ClientByte(crc: bv32, b: Byte) returns (next: bv32)
    requires Within(crc, 0xFFFF)
    ensures Within(next, 0xFFFF) && Low16(next) == AddByte(Low16(crc), b)
  {
    hide MulX, Low16, Within, Room, Plus, ClientTurn, TakeByte;
    ClientStart();
    TakeByteIs(crc, b);
    next := TakeByte(crc, b);
    for j := 0 to 8
      invariant Within(next, Room(j))
      invariant MulXn(Low16(next), 8 - j) == AddByte(Low16(crc), b)
    {
      MaskLater(next);
      TurnFits(next, j);
      OneRoomMore(j);
      next := Turned(next);
    }
    MaskNow(next);
    next := next & 0xFFFF;
  }

  lemma OneRoomMore(j: nat)
    requires j < 8
    ensures Room(j + 1) == (Room(j) << 1) | 1
  {
  }

  /** The Python client's `crc16`: one integer, masked only after the eight shifts of a byte. Python's integer is
      unbounded; by `TurnFits` no shift here loses a bit of it. */
  method ClientCrc(data: seq<Byte>) returns (crc: bv32)
    ensures crc == Crc(data) as bv32
  {
    hide Low16, Within, AddByte;
    crc := 0xFFFF;
    ClientStart();
    assert data[0..] == data;
    for i := 0 to |data|
      invariant Within(crc, 0xFFFF)
      invariant CrcFrom(Low16(crc), data[i..]) == Crc(data)
    {
      crc := ClientByte(crc, data[i]);
      assert data[i..][1..] == data[i + 1..];
    }
    LowIsAll(crc);
  }

  // ------------------------------------------------------------------ bits of a message

  /** The bits of a byte, most significant first: the order in which the register takes them. */
  function ByteBits(b: Byte): (w: seq<bool>)
    ensures |w| == 8
  {
    [b & 0x80 != 0, b & 0x40 != 0, b & 0x20 != 0, b & 0x10 != 0,
     b & 0x08 != 0, b & 0x04 != 0, b & 0x02 != 0, b & 0x01 != 0]
  }

  function Bits(data: seq<Byte>): (w: seq<bool>)
    ensures |w| == 8 * |data|
  {
    if data == [] then [] else ByteBits(data[0]) + Bits(data[1..])
  }

  function Top(bit: bool): bv16 {
    if bit then 0x8000 else 0
  }

  function AddBit(s: bv16, bit: bool): bv16 {
    MulX(Plus(s, Top(bit)))
  }

  function CrcBits(s: bv16, w: seq<bool>): bv16
    decreases |w|
  {
    if w == [] then s else CrcBits(AddBit(s, w[0]), w[1..])
  }

  lemma MulXLinear(a: bv16, b: bv16)
    ensures MulX(Plus(a, b)) == Plus(MulX(a), MulX(b))
  {
    assert MulX(a ^ b) == MulX(a) ^ MulX(b);
  }

  /** Distinct states stay distinct: x is invertible modulo the generator. */
  lemma MulXInjective(a: bv16, b: bv16)
    requires MulX(a) == MulX(b)
    ensures a == b
  {
  }

  lemma {:induction false} MulXnLinear(a: bv16, b: bv16, n: nat)
    ensures MulXn(Plus(a, b), n) == Plus(MulXn(a, n), MulXn(b, n))
    decreases n
  {
    if n > 0 {
      MulXLinear(a, b);
      MulXnLinear(MulX(a), MulX(b), n - 1);
    }
  }

  lemma {:induction false} MulXnInjective(a: bv16, b: bv16, n: nat)
    requires MulXn(a, n) == MulXn(b, n)
    ensures a == b
    decreases n
  {
    if n > 0 {
      MulXnInjective(MulX(a), MulX(b), n - 1);
      MulXInjective(a, b);
    }
  }

  function Half(v: bv16): bv16 {
    v >> 1
  }

  /** Up to sixteen message bits, left-aligned in a register. */
  function Window(w: seq<bool>): bv16 {
    if w == [] then 0 else Plus(Top(w[0]), Half(Window(w[1..])))
  }

  /** The top `n` bits of a register. */
  function TopMask(n: nat): bv16 {
    if n == 0 then 0 else 0x8000 | (TopMask(n - 1) >> 1)
  }

  lemma {:induction false} TopMaskGrows(n: nat)
    ensures TopMask(n) & !TopMask(n + 1) == 0
  {
    if n > 0 {
      TopMaskGrows(n - 1);
    }
  }

  lemma {:induction false} TopMaskWithin(n: nat, m: nat)
    requires n <= m
    ensures TopMask(n) & !TopMask(m) == 0
    decreases m - n
  {
    if n < m {
      TopMaskGrows(n);
      TopMaskWithin(n + 1, m);
    }
  }

  lemma {:induction false} WindowInMask(w: seq<bool>)
    ensures Window(w) & !TopMask(|w|) == 0
  {
    if w != [] {
      WindowInMask(w[1..]);
    }
  }

  lemma EvenIsTwice(rest: bv16)
    requires rest & 1 == 0
    ensures MulX(Half(rest)) == rest
  {
  }

  lemma PlusAssociative(a: bv16, b: bv16, c: bv16)
    ensures Plus(a, Plus(b, c)) == Plus(Plus(a, b), c)
  {
  }

  lemma ShiftInWindow(s: bv16, top: bv16, rest: bv16)
    requires rest & 1 == 0
    ensures MulX(Plus(s, Plus(top, Half(rest)))) == Plus(MulX(Plus(s, top)), rest)
  {
    EvenIsTwice(rest);
    PlusAssociative(s, top, Half(rest));
    hide MulX, Plus, Half;
    MulXLinear(Plus(s, top), Half(rest));
  }

  /** Taking in up to sixteen bits one at a time is taking them in at once, then multiplying by x^|w|. */
  lemma {:induction false} AbsorbWindow(s: bv16, w: seq<bool>)
    requires |w| <= 16
    ensures CrcBits(s, w) == MulXn(Plus(s, Window(w)), |w|)
    decreases |w|
  {
    if w != [] {
      WindowEven(w[1..]);
      ShiftInWindow(s, Top(w[0]), Window(w[1..]));
      AbsorbWindow(AddBit(s, w[0]), w[1..]);
    }
  }

  /** Fewer than sixteen bits leave the lowest position of the window empty. */
  lemma WindowEven(w: seq<bool>)
    requires |w| < 16
    ensures Window(w) & 1 == 0
  {
    WindowInMask(w);
    TopMaskWithin(|w|, 15);
    assert TopMask(15) == 0xFFFE;
  }

  lemma TopAndRest(v: bv16)
    ensures Plus(Top(v & 0x8000 != 0), Half(v << 1)) == v
  {
    assert Top(v & 0x8000 != 0) == v & 0x8000;
    assert (v & 0x8000) ^ ((v << 1) >> 1) == v;
  }

  /** Left-aligned, the bits of a byte are the byte in the upper half of the register. */
  lemma WindowOfByte(b: Byte)
    ensures Window(ByteBits(b)) == (b as bv16) << 8
  {
    var w, t := ByteBits(b), (b as bv16) << 8;
    TopAndRest(t << 7);
    assert w[7..] == [w[7]];
    TopAndRest(t << 6);
    assert w[6..][1..] == w[7..];
    TopAndRest(t << 5);
    assert w[5..][1..] == w[6..];
    TopAndRest(t << 4);
    assert w[4..][1..] == w[5..];
    TopAndRest(t << 3);
    assert w[3..][1..] == w[4..];
    TopAndRest(t << 2);
    assert w[2..][1..] == w[3..];
    TopAndRest(t << 1);
    assert w[1..][1..] == w[2..];
    TopAndRest(t);
    hide Top, Plus, Half;
    assert Window(w[7..]) == t << 7;
    assert Window(w[6..]) == t << 6;
    assert Window(w[5..]) == t << 5;
    assert Window(w[4..]) == t << 4;
    assert Window(w[3..]) == t << 3;
    assert Window(w[2..]) == t << 2;
    assert Window(w[1..]) == t << 1;
  }

  lemma ByteIsEightBits(s: bv16, b: Byte)
    ensures AddByte(s, b) == CrcBits(s, ByteBits(b))
  {
    WindowOfByte(b);
    AbsorbWindow(s, ByteBits(b));
  }

  lemma {:induction false} CrcBitsConcat(s: bv16, v: seq<bool>, w: seq<bool>)
    ensures CrcBits(s, v + w) == CrcBits(CrcBits(s, v), w)
    decreases |v|
  {
    if v == [] {
      assert v + w == w;
    } else {
      assert (v + w)[1..] == v[1..] + w;
      CrcBitsConcat(AddBit(s, v[0]), v[1..], w);
    }
  }

  /** The byte-wise register is the bit-wise one run over the message's bits. */
  lemma {:induction false} CrcIsOverBits(s: bv16, data: seq<Byte>)
    ensures CrcFrom(s, data) == CrcBits(s, Bits(data))
    decreases |data|
  {
    if data != [] {
      ByteIsEightBits(s, data[0]);
      CrcBitsConcat(s, ByteBits(data[0]), Bits(data[1..]));
      CrcIsOverBits(AddByte(s, data[0]), data[1..]);
    }
  }
}
