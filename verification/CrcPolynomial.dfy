/** The register as a polynomial over GF(2), and the CRC as a polynomial remainder. */
module CrcPolynomial {
  import opened Common
  import opened Crc16
  import opened CrcOrder
  import opened Gf2

  predicate LowBit(s: bv16) {
    s & 1 == 1
  }

  /** The lowest `n` coefficients of a register. */
  function LowPoly(s: bv16, n: nat): (p: Poly)
    ensures forall e :: e in p ==> e < n
    decreases n
  {
    if n == 0 then {} else Add(Term(LowBit(s), 0), Shift(LowPoly(Half(s), n - 1), 1))
  }

  function RegisterPoly(s: bv16): (p: Poly)
    ensures forall e :: e in p ==> e < 16
  {
    LowPoly(s, 16)
  }

  /** A message as a polynomial: its first bit has the highest exponent. */
  function MessagePoly(w: seq<bool>): (p: Poly)
    decreases |w|
  {
    if w == [] then {} else Add(Term(w[|w| - 1], 0), Shift(MessagePoly(w[..|w| - 1]), 1))
  }

  /** Which exponents those are. */
  lemma {:induction false} MessagePolyIs(w: seq<bool>, e: nat)
    ensures e in MessagePoly(w) <==> e < |w| && w[|w| - 1 - e]
    decreases |w|
  {
    if w != [] && 0 < e {
      MessagePolyIs(w[..|w| - 1], e - 1);
    }
  }

  // ------------------------------------------------------------------ registers

  lemma LowBitLinear(a: bv16, b: bv16)
    ensures LowBit(Plus(a, b)) == (LowBit(a) != LowBit(b))
    ensures Half(Plus(a, b)) == Plus(Half(a), Half(b))
  {
    LowLinear(0, a, b);
    assert (a ^ b) & 1 == (a & 1) ^ (b & 1);
  }

  lemma {:induction false} LowPolyLinear(a: bv16, b: bv16, n: nat)
    ensures LowPoly(Plus(a, b), n) == Add(LowPoly(a, n), LowPoly(b, n))
    decreases n
  {
    if n > 0 {
      LowBitLinear(a, b);
      hide LowBit, Half, Plus;
      LowPolyLinear(Half(a), Half(b), n - 1);
    }
  }

  lemma {:induction false} LowPolyOfFitting(s: bv16, n: nat)
    requires Fits(s, n)
    ensures LowPoly(s, n + 1) == LowPoly(s, n)
    decreases n
  {
    if n == 0 {
      assert LowPoly(0, 1) == {};
    } else {
      hide LowBit, Half;
      LowPolyOfFitting(Half(s), n - 1);
    }
  }

  lemma {:induction false} ZeroPoly(n: nat)
    ensures LowPoly(0, n) == {}
  {
    if n > 0 {
      assert Half(0) == 0 && !LowBit(0);
      ZeroPoly(n - 1);
    }
  }

  /** `s` is the register x^k. */
  predicate IsPower(s: bv16, k: nat)
    decreases k
  {
    if k == 0 then s == 1 else !LowBit(s) && IsPower(Half(s), k - 1)
  }

  lemma TermUp(k: nat)
    ensures Add(Term(false, 0), Shift({k}, 1)) == {k + 1}
    ensures Add(Term(true, 0), Shift({}, 1)) == {0}
  {
  }

  lemma OnePoly(n: nat)
    requires 0 < n
    ensures LowPoly(1, n) == {0}
  {
    OneHalved();
    ZeroPoly(n - 1);
    TermUp(0);
    hide LowBit, Half, Add, Shift;
  }

  lemma {:induction false} PowerPoly(s: bv16, k: nat, n: nat)
    requires IsPower(s, k) && k < n
    ensures LowPoly(s, n) == {k}
    decreases k
  {
    hide LowBit, Half;
    if k == 0 {
      OnePoly(n);
    } else {
      PowerPoly(Half(s), k - 1, n - 1);
      TermUp(k - 1);
    }
  }

  lemma OneHalved()
    ensures Half(1) == 0 && LowBit(1)
  {
  }

  lemma TopPoly()
    ensures LowPoly(0x8000, 16) == {15}
  {
    assert IsPower(0x0100, 8);
    assert IsPower(0x8000, 15);
    PowerPoly(0x8000, 15, 16);
  }

  lemma FeedbackPoly()
    ensures LowPoly(0x1021, 16) == {12, 5, 0}
  {
    assert IsPower(0x0001, 0) && IsPower(0x0020, 5);
    assert IsPower(0x1000, 12);
    assert Plus(0x1000, Plus(0x0020, 0x0001)) == 0x1021;
    PowerPoly(0x0001, 0, 16);
    PowerPoly(0x0020, 5, 16);
    PowerPoly(0x1000, 12, 16);
    LowPolyLinear(0x0020, 0x0001, 16);
    LowPolyLinear(0x1000, Plus(0x0020, 0x0001), 16);
    hide Plus;
    ThreeTerms();
  }

  lemma ThreeTerms()
    ensures Add({12}, Add({5}, {0})) == {12, 5, 0}
  {
  }

  function Body(s: bv16): bv16 {
    s & 0x7FFF
  }

  predicate HasTop(s: bv16) {
    s & 0x8000 != 0
  }

  function Feedback(top: bool): bv16 {
    if top then 0x1021 else 0
  }

  function Twice(s: bv16): bv16 {
    s << 1
  }

  lemma SplitTop(s: bv16)
    ensures s == Plus(Body(s), Top(HasTop(s)))
  {
    if HasTop(s) {
      assert (s & 0x7FFF) ^ 0x8000 == s;
    }
  }

  lemma MulXBySplit(s: bv16)
    ensures MulX(s) == Plus(Twice(Body(s)), Feedback(HasTop(s)))
  {
    TwiceBody(s);
    if HasTop(s) {
      TurnHigh(s);
      XorIsPlus(s << 1, 0x1021);
    } else {
      TurnLow(s);
      XorIsPlus(s << 1, 0);
    }
    hide MulX, Twice, Body, Plus;
  }

  lemma TwiceBody(s: bv16)
    ensures Twice(Body(s)) == s << 1
  {
  }

  lemma XorIsPlus(a: bv16, b: bv16)
    ensures a ^ b == Plus(a, b)
    ensures Plus(a, 0) == a
  {
  }

  lemma BodyFits(s: bv16)
    ensures Half(Twice(Body(s))) == Body(s) && !LowBit(Twice(Body(s)))
    ensures Fits(Body(s), 15)
  {
    AlwaysFits(Twice(Body(s)));
  }

  lemma FeedbackIs(top: bool)
    ensures LowPoly(Feedback(top), 16) == if top then {12, 5, 0} else {}
    ensures LowPoly(Top(top), 16) == Term(top, 15)
  {
    ZeroPoly(16);
    TopPoly();
    FeedbackPoly();
  }

  lemma SplitPoly(s: bv16)
    ensures RegisterPoly(s) == Add(LowPoly(Body(s), 15), Term(HasTop(s), 15))
  {
    SplitTop(s);
    BodyFits(s);
    FeedbackIs(HasTop(s));
    hide Body, HasTop, Twice, Feedback, Plus, Top, Half, LowBit;
    LowPolyLinear(Body(s), Top(HasTop(s)), 16);
    LowPolyOfFitting(Body(s), 15);
  }

  lemma NextPoly(s: bv16)
    ensures RegisterPoly(MulX(s)) ==
            Add(Add(Term(false, 0), Shift(LowPoly(Body(s), 15), 1)), if HasTop(s) then {12, 5, 0} else {})
  {
    MulXBySplit(s);
    BodyFits(s);
    FeedbackIs(HasTop(s));
    hide Body, HasTop, Twice, Feedback, Plus, Top, MulX, Half, LowBit;
    SumPoly(MulX(s), Twice(Body(s)), Feedback(HasTop(s)), Body(s));
  }

  lemma SumPoly(next: bv16, double: bv16, feedback: bv16, body: bv16)
    requires next == Plus(double, feedback) && Half(double) == body && !LowBit(double)
    ensures LowPoly(next, 16) == Add(Add(Term(false, 0), Shift(LowPoly(body, 15), 1)), LowPoly(feedback, 16))
  {
    LowPolyLinear(double, feedback, 16);
  }

  /** Multiplication by x, as polynomials: x times the register is the next register plus the generator if the top
      coefficient left. */
  lemma MulXPoly(s: bv16)
    ensures Shift(RegisterPoly(s), 1) ==
            Add(RegisterPoly(MulX(s)), TimesGenerator(Term(HasTop(s), 0)))
  {
    SplitPoly(s);
    NextPoly(s);
    hide Body, HasTop, MulX, RegisterPoly;
    ShiftBySplit(LowPoly(Body(s), 15), HasTop(s), RegisterPoly(s), RegisterPoly(MulX(s)));
  }

  lemma ShiftBySplit(low: Poly, top: bool, now: Poly, next: Poly)
    requires now == Add(low, Term(top, 15))
    requires next == Add(Add(Term(false, 0), Shift(low, 1)), if top then {12, 5, 0} else {})
    ensures Shift(now, 1) == Add(next, TimesGenerator(Term(top, 0)))
  {
    GeneratorItself(top);
    hide TimesGenerator;
  }

  lemma AddBitPoly(s: bv16, bit: bool)
    ensures RegisterPoly(Plus(s, Top(bit))) == Add(RegisterPoly(s), Term(bit, 15))
  {
    FeedbackIs(bit);
    LowPolyLinear(s, Top(bit), 16);
  }

  // ------------------------------------------------------------------ the remainder

  lemma CrcBitsSnoc(s: bv16, w: seq<bool>)
    requires w != []
    ensures CrcBits(s, w) == AddBit(CrcBits(s, w[..|w| - 1]), w[|w| - 1])
  {
    CrcBitsConcat(s, w[..|w| - 1], [w[|w| - 1]]);
    assert w == w[..|w| - 1] + [w[|w| - 1]];
  }

  /** One more bit: the next register is the old one with the bit added, times x, less the generator if needed. */
  lemma StepPoly(c: bv16, bit: bool) returns (top: bool)
    ensures Shift(Add(RegisterPoly(c), Term(bit, 15)), 1) ==
            Add(RegisterPoly(AddBit(c, bit)), TimesGenerator(Term(top, 0)))
  {
    top := HasTop(Plus(c, Top(bit)));
    AddBitPoly(c, bit);
    MulXPoly(Plus(c, Top(bit)));
    hide Plus, Top, MulX, RegisterPoly, HasTop, TimesGenerator, Term;
  }

  lemma {:induction false} Division(s: bv16, w: seq<bool>) returns (q: Poly)
    ensures Add(Shift(RegisterPoly(s), |w|), Shift(MessagePoly(w), 16)) ==
            Add(TimesGenerator(q), RegisterPoly(CrcBits(s, w)))
    decreases |w|
  {
    hide RegisterPoly, TimesGenerator, Term, AddBit;
    if w == [] {
      q := {};
      EmptyDivision(RegisterPoly(s));
    } else {
      var v, bit := w[..|w| - 1], w[|w| - 1];
      var q' := Division(s, v);
      CrcBitsSnoc(s, w);
      var top := StepPoly(CrcBits(s, v), bit);
      ExtendDivision(RegisterPoly(s), |v|, MessagePoly(v), q', RegisterPoly(CrcBits(s, v)), bit,
                     RegisterPoly(CrcBits(s, w)), top);
      q := Add(Shift(q', 1), Term(top, 0));
    }
  }

  lemma EmptyDivision(r: Poly)
    ensures Add(Shift(r, 0), Shift({}, 16)) == Add(TimesGenerator({}), r)
  {
  }

  /** The register after a message is the remainder of s * x^n + M * x^16, for n message bits. */
  lemma CrcIsRemainder(s: bv16, w: seq<bool>)
    ensures IsRemainder(Add(Shift(RegisterPoly(s), |w|), Shift(MessagePoly(w), 16)), RegisterPoly(CrcBits(s, w)))
  {
    var q := Division(s, w);
  }

  lemma BitAndShift(bit: bool, p: Poly, bit': bool, p': Poly)
    requires Add(Term(bit, 0), Shift(p, 1)) == Add(Term(bit', 0), Shift(p', 1))
    ensures bit == bit' && p == p'
  {
    var q, q' := Add(Term(bit, 0), Shift(p, 1)), Add(Term(bit', 0), Shift(p', 1));
    assert 0 in q <==> bit;
    assert 0 in q' <==> bit';
    forall e: nat ensures e in p <==> e in p' {
      assert e + 1 in q <==> e in p;
      assert e + 1 in q' <==> e in p';
    }
  }

  lemma {:induction false} LowPolyInjective(a: bv16, b: bv16, n: nat)
    requires Fits(a, n) && Fits(b, n) && LowPoly(a, n) == LowPoly(b, n)
    ensures a == b
    decreases n
  {
    if n > 0 {
      BitAndShift(LowBit(a), LowPoly(Half(a), n - 1), LowBit(b), LowPoly(Half(b), n - 1));
      hide Half, LowBit;
      LowPolyInjective(Half(a), Half(b), n - 1);
      FromHalf(a, b);
    }
  }

  lemma FromHalf(a: bv16, b: bv16)
    requires LowBit(a) == LowBit(b) && Half(a) == Half(b)
    ensures a == b
  {
  }

  /** Registers and polynomials of degree below 16 correspond one to one. */
  lemma RegisterPolyInjective(a: bv16, b: bv16)
    requires RegisterPoly(a) == RegisterPoly(b)
    ensures a == b
  {
    AlwaysFits(a);
    AlwaysFits(b);
    LowPolyInjective(a, b, 16);
  }

  /** The dividend of a message: 0xFFFF * x^(8n) + M * x^16. */
  function Dividend(data: seq<Byte>): Poly {
    Add(Shift(RegisterPoly(INIT), 8 * |data|), Shift(MessagePoly(Bits(data)), 16))
  }

  /** The digest of a message is the one register that is the remainder of its dividend. */
  lemma DigestIsRemainder(data: seq<Byte>, r: bv16)
    ensures r == Crc(data) <==> IsRemainder(Dividend(data), RegisterPoly(r))
  {
    CrcIsOverBits(INIT, data);
    CrcIsRemainder(INIT, Bits(data));
    hide RegisterPoly, IsRemainder;
    if IsRemainder(Dividend(data), RegisterPoly(r)) {
      RemainderUnique(Dividend(data), RegisterPoly(r), RegisterPoly(Crc(data)));
      RegisterPolyInjective(r, Crc(data));
    }
  }

  // ------------------------------------------------------------------ parity

  /** The lowest `n` coefficients of `s` are all 1, and no other is. */
  predicate Ones(s: bv16, n: nat)
    decreases n
  {
    if n == 0 then s == 0 else LowBit(s) && Ones(Half(s), n - 1)
  }

  lemma {:induction false} OnesSize(s: bv16, n: nat)
    requires Ones(s, n)
    ensures |LowPoly(s, n)| == n
    decreases n
  {
    hide LowBit, Half;
    if n > 0 {
      OnesSize(Half(s), n - 1);
      OneMore(LowPoly(Half(s), n - 1));
    }
  }

  lemma OneMore(p: Poly)
    ensures |Add(Term(true, 0), Shift(p, 1))| == |p| + 1
  {
    ShiftSize(p, 1);
    assert Add(Term(true, 0), Shift(p, 1)) == {0} + Shift(p, 1);
  }

  lemma InitialEven()
    ensures |RegisterPoly(INIT)| == 16
  {
    assert Ones(0x00FF, 8);
    assert Ones(0xFFFF, 16);
    OnesSize(0xFFFF, 16);
  }

  /** The parity of a division's two sides. */
  lemma DivisionParity(s: Poly, n: nat, m: Poly, q: Poly, r: Poly)
    requires Add(Shift(s, n), Shift(m, 16)) == Add(TimesGenerator(q), r)
    ensures Odd(|r|) == (Odd(|s|) != Odd(|m|))
  {
    ShiftSize(s, n);
    ShiftSize(m, 16);
    AddParity(Shift(s, n), Shift(m, 16));
    AddParity(TimesGenerator(q), r);
    MultipleEven(q);
    hide TimesGenerator, Odd;
  }

  lemma SixteenEven()
    ensures !Odd(16)
  {
  }

  /** The digest has an odd number of set bits exactly when the message has. */
  lemma DigestParity(data: seq<Byte>)
    ensures Odd(|RegisterPoly(Crc(data))|) == Odd(|MessagePoly(Bits(data))|)
  {
    hide RegisterPoly, MessagePoly, TimesGenerator, Odd, CrcFrom, CrcBits, Bits;
    CrcIsOverBits(INIT, data);
    var q := Division(INIT, Bits(data));
    InitialEven();
    SixteenEven();
    DivisionParity(RegisterPoly(INIT), 8 * |data|, MessagePoly(Bits(data)), q, RegisterPoly(CrcBits(INIT, Bits(data))));
  }

  /** Messages, even of different lengths, whose polynomials differ in an odd number of terms. */
  lemma OddPolyDetected(a: seq<Byte>, b: seq<Byte>)
    requires Odd(|Add(MessagePoly(Bits(a)), MessagePoly(Bits(b)))|)
    ensures Crc(a) != Crc(b)
  {
    hide RegisterPoly, Crc, Odd;
    AddParity(MessagePoly(Bits(a)), MessagePoly(Bits(b)));
    DigestParity(a);
    DigestParity(b);
  }

  /** The positions in which two equally long bit strings differ. */
  function Differing(v: seq<bool>, w: seq<bool>): (d: set<nat>)
    requires |v| == |w|
    ensures forall i: nat :: i in d <==> i < |v| && v[i] != w[i]
  {
    set i: nat | i < |v| && v[i] != w[i]
  }

  /** A position counted from the other end. */
  function Opposite(n: nat, i: nat): nat
    requires i < n
  {
    n - 1 - i
  }

  function Mirror(n: nat, d: set<nat>): (m: set<nat>)
    ensures forall e: nat :: e in m <==> e < n && Opposite(n, e) in d
  {
    set e: nat | e < n && Opposite(n, e) in d
  }

  lemma {:induction false} MirrorSize(n: nat, d: set<nat>)
    requires forall i :: i in d ==> i < n
    ensures |Mirror(n, d)| == |d|
    decreases |d|
  {
    if d == {} {
      assert Mirror(n, d) == {};
    } else {
      var x :| x in d;
      MirrorSize(n, d - {x});
      assert Mirror(n, d) == Mirror(n, d - {x}) + {Opposite(n, x)};
    }
  }

  /** The difference of the polynomials of equally long bit strings has one term for each differing bit. */
  lemma DifferenceIsMirror(v: seq<bool>, w: seq<bool>)
    requires |v| == |w|
    ensures |Add(MessagePoly(v), MessagePoly(w))| == |Differing(v, w)|
  {
    hide MessagePoly, Add, Mirror, Differing;
    var p, q, m := MessagePoly(v), MessagePoly(w), Mirror(|v|, Differing(v, w));
    forall e: nat ensures e in Add(p, q) <==> e in m {
      MessagePolyIs(v, e);
      MessagePolyIs(w, e);
    }
    assert Add(p, q) == m;
    MirrorSize(|v|, Differing(v, w));
  }

  /** Messages that differ in an odd number of bits have different digests. */
  lemma OddErrorsDetected(a: seq<Byte>, b: seq<Byte>)
    requires |a| == |b| && Odd(|Differing(Bits(a), Bits(b))|)
    ensures Crc(a) != Crc(b)
  {
    hide Crc, Odd, MessagePoly, Add, Differing, Bits;
    DifferenceIsMirror(Bits(a), Bits(b));
    OddPolyDetected(a, b);
  }
}
