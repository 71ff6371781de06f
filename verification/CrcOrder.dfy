/** The multiplicative order of x modulo the generator. */
module CrcOrder {
  import opened Crc16

  /** The order of x modulo x^16 + x^12 + x^5 + 1. */
  const ORDER: nat := 32767

  lemma {:induction false} MulXnAdd(v: bv16, m: nat, n: nat)
    ensures MulXn(v, m + n) == MulXn(MulXn(v, m), n)
    decreases m
  {
    if m > 0 {
      MulXnAdd(MulX(v), m - 1, n);
    }
  }

  // ------------------------------------------------------------------ products of remainders

  function Low(b: bv16, a: bv16): bv16 {
    if b & 1 == 1 then a else 0
  }

  /** `a` times the lowest `n` coefficients of `b`, modulo the generator. */
  function Mul(a: bv16, b: bv16, n: nat): bv16
    decreases n
  {
    if n == 0 then 0 else Plus(Low(b, a), Mul(MulX(a), Half(b), n - 1))
  }

  lemma LowLinear(a: bv16, b: bv16, c: bv16)
    ensures Low(Plus(b, c), a) == Plus(Low(b, a), Low(c, a))
    ensures Half(Plus(b, c)) == Plus(Half(b), Half(c))
  {
    assert (b ^ c) & 1 == (b & 1) ^ (c & 1);
    assert a ^ a == 0;
  }

  lemma LowMulX(a: bv16, b: bv16)
    ensures MulX(Low(b, a)) == Low(b, MulX(a))
  {
    assert MulX(0) == 0;
  }

  lemma {:induction false} MulMulX(a: bv16, b: bv16, n: nat)
    ensures MulX(Mul(a, b, n)) == Mul(MulX(a), b, n)
    decreases n
  {
    if n == 0 {
      assert MulX(0) == 0;
    } else {
      LowMulX(a, b);
      MulXLinear(Low(b, a), Mul(MulX(a), Half(b), n - 1));
      hide MulX, Plus, Low, Half;
      MulMulX(MulX(a), Half(b), n - 1);
    }
  }

  /** Whether `b` has no coefficient above the lowest `n`. */
  predicate Fits(b: bv16, n: nat)
    decreases n
  {
    if n == 0 then b == 0 else Fits(Half(b), n - 1)
  }

  lemma AlwaysFits(b: bv16)
    ensures Fits(b, 16)
  {
    assert Fits(b, 16) == Fits(b >> 4, 12) by {
      assert (((b >> 1) >> 1) >> 1) >> 1 == b >> 4;
    }
    assert Fits(b >> 4, 12) == Fits(b >> 8, 8) by {
      assert ((((b >> 4) >> 1) >> 1) >> 1) >> 1 == b >> 8;
    }
    assert Fits(b >> 8, 8) == Fits(b >> 12, 4) by {
      assert ((((b >> 8) >> 1) >> 1) >> 1) >> 1 == b >> 12;
    }
    assert ((((b >> 12) >> 1) >> 1) >> 1) >> 1 == 0;
  }

  lemma LowAndRest(w: bv16)
    ensures w == Plus(Low(w, 1), MulX(Half(w)))
  {
    LowIsMasked(w);
    HalfDoubled(w);
    Recombine(w);
    hide Plus, Low, MulX, Half;
  }

  lemma LowIsMasked(w: bv16)
    ensures Low(w, 1) == w & 1
  {
  }

  lemma HalfDoubled(w: bv16)
    ensures MulX(Half(w)) == w & 0xFFFE
  {
    assert (w >> 1) >> 15 == 0;
    assert MulX(w >> 1) == (w >> 1) << 1;
  }

  lemma Recombine(w: bv16)
    ensures Plus(w & 1, w & 0xFFFE) == w
  {
  }

  lemma LowThrough(w: bv16, m: nat)
    ensures MulXn(Low(w, 1), m) == Low(w, MulXn(1, m))
  {
    MulXnZero(m);
  }

  lemma {:induction false} MulXnZero(m: nat)
    ensures MulXn(0, m) == 0
  {
    if m > 0 {
      assert MulX(0) == 0;
      MulXnZero(m - 1);
    }
  }

  /** Multiplying by x^m is multiplying by the remainder of x^m. */
  lemma {:induction false} MulXnIsMul(w: bv16, m: nat, n: nat)
    requires Fits(w, n)
    ensures MulXn(w, m) == Mul(MulXn(1, m), w, n)
    decreases n
  {
    if n == 0 {
      MulXnZero(m);
    } else {
      LowAndRest(w);
      LowThrough(w, m);
      hide MulX, Plus, Low, Half;
      MulXnLinear(Low(w, 1), MulX(Half(w)), m);
      MulXnAdd(Half(w), 1, m);
      MulXnAdd(Half(w), m, 1);
      MulXnIsMul(Half(w), m, n - 1);
      MulMulX(MulXn(1, m), Half(w), n - 1);
    }
  }

  /** The product of two remainders, four coefficients at a time. */
  function Product(a: bv16, b: bv16): bv16 {
    Four(a, b, Four(MulX4(a), Half4(b), Four(MulX4(MulX4(a)), Half4(Half4(b)),
         Four(MulX4(MulX4(MulX4(a))), Half4(Half4(Half4(b))), 0))))
  }

  function MulX4(a: bv16): bv16 {
    MulX(MulX(MulX(MulX(a))))
  }

  function Half4(b: bv16): bv16 {
    Half(Half(Half(Half(b))))
  }

  function Four(a: bv16, b: bv16, rest: bv16): bv16 {
    Plus(Low(b, a), Plus(Low(Half(b), MulX(a)),
         Plus(Low(Half(Half(b)), MulX(MulX(a))), Plus(Low(Half(Half(Half(b))), MulX(MulX(MulX(a)))), rest))))
  }

  lemma MulByFour(a: bv16, b: bv16, n: nat)
    requires 4 <= n
    ensures Mul(a, b, n) == Four(a, b, Mul(MulX4(a), Half4(b), n - 4))
  {
    hide Plus, Low, MulX, Half;
    assert Mul(a, b, n) == Plus(Low(b, a), Mul(MulX(a), Half(b), n - 1));
    assert Mul(MulX(a), Half(b), n - 1) == Plus(Low(Half(b), MulX(a)), Mul(MulX(MulX(a)), Half(Half(b)), n - 2));
  }

  /** Exponents add under the product. */
  lemma PowersMultiply(e: nat, f: nat, v: bv16, w: bv16)
    requires MulXn(1, e) == v && MulXn(1, f) == w
    ensures MulXn(1, e + f) == Product(w, v)
  {
    AlwaysFits(v);
    MulXnAdd(1, e, f);
    MulXnIsMul(v, f, 16);
    MulByFour(w, v, 16);
    MulByFour(MulX4(w), Half4(v), 12);
    MulByFour(MulX4(MulX4(w)), Half4(Half4(v)), 8);
    MulByFour(MulX4(MulX4(MulX4(w))), Half4(Half4(Half4(v))), 4);
    hide Four, MulX4, Half4;
  }

  // ------------------------------------------------------------------ periods

  ghost predicate Period(d: nat) {
    MulXn(1, d) == 1
  }

  lemma PeriodDifference(a: nat, b: nat)
    requires Period(a) && Period(b) && b <= a
    ensures Period(a - b)
  {
    MulXnAdd(1, a - b, b);
    MulXnInjective(MulXn(1, a - b), 1, b);
  }

  lemma {:induction false} PeriodMultiple(d: nat, k: nat)
    requires Period(d)
    ensures Period(d * k)
  {
    if k > 0 {
      PeriodMultiple(d, k - 1);
      MulXnAdd(1, d * (k - 1), d);
      assert d * (k - 1) + d == d * k;
    }
  }

  /** Two periods have a common divisor that is a period. */
  lemma {:induction false} PeriodGcd(a: nat, b: nat) returns (g: nat, k: nat, l: nat)
    requires 0 < a && Period(a) && Period(b)
    ensures Period(g) && a == g * k && b == g * l
    decreases b
  {
    if b == 0 {
      g, k, l := a, 1, 0;
    } else {
      var q := a / b;
      PeriodMultiple(b, q);
      PeriodDifference(a, b * q);
      assert a - b * q == a % b;
      var m: nat;
      g, l, m := PeriodGcd(b, a % b);
      k := l * q + m;
      assert g * (l * q + m) == (g * l) * q + g * m;
    }
  }

  // ------------------------------------------------------------------ 32767 = 7 * 31 * 151

  /** No number from 2 to `d` divides `p`. */
  predicate NoDivisor(p: nat, d: nat) {
    d <= 1 || (p % d != 0 && NoDivisor(p, d - 1))
  }

  lemma {:induction false} NotDivided(p: nat, d: nat, e: nat)
    requires NoDivisor(p, d) && 1 < e <= d
    ensures p % e != 0
  {
    if e < d {
      NotDivided(p, d - 1, e);
    }
  }

  lemma Prime151()
    ensures NoDivisor(151, 150)
  {
    assert NoDivisor(151, 15);
    assert NoDivisor(151, 30);
    assert NoDivisor(151, 45);
    assert NoDivisor(151, 60);
    assert NoDivisor(151, 75);
    assert NoDivisor(151, 90);
    assert NoDivisor(151, 105);
    assert NoDivisor(151, 120);
    assert NoDivisor(151, 135);
  }

  /** A prime that divides r * t, with r below it, divides t. */
  lemma {:induction false} PrimeDivides(p: nat, r: nat, t: nat, m: int) returns (n: int)
    requires 0 < r < p && NoDivisor(p, p - 1) && r * t == p * m
    ensures t == p * n
    decreases r
  {
    if r == 1 {
      n := m;
    } else {
      NotDivided(p, p - 1, r);
      var q, s := p / r, p % r;
      assert s * t == p * (t - q * m) by {
        assert p == q * r + s;
        assert p * t == q * (r * t) + s * t;
        assert q * (p * m) == p * (q * m);
      }
      n := PrimeDivides(p, s, t, t - q * m);
    }
  }

  lemma CancelFactor(p: nat, n: int, k: nat, rest: nat)
    requires 0 < p && (p * n) * k == p * rest
    ensures n * k == rest
  {
    assert p * (n * k) == p * rest;
  }

  /** A prime factor of g * k that k lacks can be struck from g. */
  lemma StrikeFactor(p: nat, g: int, k: nat, rest: nat) returns (h: int)
    requires 0 < p && NoDivisor(p, p - 1) && k % p != 0 && 0 <= g && g * k == p * rest
    ensures 0 <= h && h * k == rest
  {
    var q, r := k / p, k % p;
    assert r * g == p * (rest - q * g) by {
      assert k == p * q + r;
      assert g * k == p * (q * g) + r * g;
    }
    h := PrimeDivides(p, r, g, rest - q * g);
    CancelFactor(p, h, k, rest);
    NonNegativeFactor(p, h);
  }

  lemma NonNegativeFactor(p: nat, n: int)
    requires 0 < p && 0 <= p * n
    ensures 0 <= n
  {
  }

  /** 7, 31 and 151 are all the primes of 32767. */
  lemma CofactorIsOne(g: nat, k: nat)
    requires g * k == ORDER && k % 7 != 0 && k % 31 != 0 && k % 151 != 0
    ensures k == 1
  {
    assert NoDivisor(7, 6);
    assert NoDivisor(31, 15);
    assert NoDivisor(31, 30);
    Prime151();
    var h := StrikeFactor(7, g, k, 4681);
    h := StrikeFactor(31, h, k, 151);
    h := StrikeFactor(151, h, k, 1);
    if h == 0 {
    } else {
      assert k <= h * k;
    }
  }

  lemma PowersTo73()
    ensures MulXn(1, 1) == 0x0002 && MulXn(1, 36) == 0x4363 && MulXn(1, 72) == 0x47D3 && MulXn(1, 73) == 0x8FA6
  {
    assert MulXn(1, 1) == MulX(1);
    PowersMultiply(1, 1, 0x0002, 0x0002);
    assert Product(0x0002, 0x0002) == 0x0004;
    PowersMultiply(2, 2, 0x0004, 0x0004);
    assert Product(0x0004, 0x0004) == 0x0010;
    PowersMultiply(4, 4, 0x0010, 0x0010);
    assert Product(0x0010, 0x0010) == 0x0100;
    PowersMultiply(8, 1, 0x0100, 0x0002);
    assert Product(0x0002, 0x0100) == 0x0200;
    PowersMultiply(9, 9, 0x0200, 0x0200);
    assert Product(0x0200, 0x0200) == 0x4084;
    PowersMultiply(18, 18, 0x4084, 0x4084);
    assert Product(0x4084, 0x4084) == 0x4363;
    PowersMultiply(36, 36, 0x4363, 0x4363);
    assert Product(0x4363, 0x4363) == 0x47D3;
    PowersMultiply(72, 1, 0x47D3, 0x0002);
    assert Product(0x0002, 0x47D3) == 0x8FA6;
  }

  lemma PowersTo4681()
    ensures MulXn(1, 292) == 0x1396 && MulXn(1, 585) == 0x4500 && MulXn(1, 4681) == 0x2C42
  {
    PowersTo73();
    PowersMultiply(73, 73, 0x8FA6, 0x8FA6);
    assert Product(0x8FA6, 0x8FA6) == 0x4388;
    PowersMultiply(146, 146, 0x4388, 0x4388);
    assert Product(0x4388, 0x4388) == 0x1396;
    PowersMultiply(292, 292, 0x1396, 0x1396);
    assert Product(0x1396, 0x1396) == 0x2280;
    PowersMultiply(584, 1, 0x2280, 0x0002);
    assert Product(0x0002, 0x2280) == 0x4500;
    PowersMultiply(585, 585, 0x4500, 0x4500);
    assert Product(0x4500, 0x4500) == 0x0163;
    PowersMultiply(1170, 1170, 0x0163, 0x0163);
    assert Product(0x0163, 0x0163) == 0x0424;
    PowersMultiply(2340, 2340, 0x0424, 0x0424);
    assert Product(0x0424, 0x0424) == 0x1621;
    PowersMultiply(4680, 1, 0x1621, 0x0002);
    assert Product(0x0002, 0x1621) == 0x2C42;
  }

  lemma PowersTo1057()
    ensures MulXn(1, 217) == 0x48E3 && MulXn(1, 1057) == 0xF2AF
  {
    PowersTo73();
    PowersTo4681();
    PowersMultiply(72, 72, 0x47D3, 0x47D3);
    assert Product(0x47D3, 0x47D3) == 0x10E2;
    PowersMultiply(144, 73, 0x10E2, 0x8FA6);
    assert Product(0x8FA6, 0x10E2) == 0x48E3;
    PowersMultiply(144, 36, 0x10E2, 0x4363);
    assert Product(0x4363, 0x10E2) == 0x8ECD;
    PowersMultiply(180, 292, 0x8ECD, 0x1396);
    assert Product(0x1396, 0x8ECD) == 0x9756;
    PowersMultiply(472, 585, 0x9756, 0x4500);
    assert Product(0x4500, 0x9756) == 0xF2AF;
  }

  lemma PowerOrder()
    ensures MulXn(1, 32767) == 0x0001
  {
    PowersTo4681();
    PowersMultiply(4681, 4681, 0x2C42, 0x2C42);
    assert Product(0x2C42, 0x2C42) == 0x8635;
    PowersMultiply(9362, 9362, 0x8635, 0x8635);
    assert Product(0x8635, 0x8635) == 0x5A68;
    PowersMultiply(18724, 9362, 0x5A68, 0x8635);
    assert Product(0x8635, 0x5A68) == 0x762B;
    PowersMultiply(28086, 4681, 0x762B, 0x2C42);
    assert Product(0x2C42, 0x762B) == 0x0001;
  }

  /** x^32767 is 1 modulo the generator, and none of x^4681, x^1057, x^217 is. */
  lemma KnownPowers()
    ensures Period(ORDER) && !Period(4681) && !Period(1057) && !Period(217)
  {
    PowersTo4681();
    PowersTo1057();
    PowerOrder();
  }

  lemma FactorPeriod(g: nat, k: nat, p: nat, m: nat)
    requires Period(g) && 0 < p && k % p == 0 && g * k == p * m
    ensures Period(m)
  {
    PeriodMultiple(g, k / p);
    assert k == p * (k / p);
    assert g * (p * (k / p)) == p * (g * (k / p));
    Cancel(p, g * (k / p), m);
  }

  lemma Cancel(p: nat, a: nat, b: nat)
    requires 0 < p && p * a == p * b
    ensures a == b
  {
  }

  /** A period between 0 and 32767 would make one of 4681, 1057 and 217 a period. */
  lemma ShortPeriod(r: nat)
    requires Period(ORDER) && Period(r) && r % ORDER != 0
    ensures Period(4681) || Period(1057) || Period(217)
  {
    var g, k, l := PeriodGcd(ORDER, r);
    assert k == 1 ==> r == ORDER * l;
    if k % 7 == 0 {
      FactorPeriod(g, k, 7, 4681);
    } else if k % 31 == 0 {
      FactorPeriod(g, k, 31, 1057);
    } else if k % 151 == 0 {
      FactorPeriod(g, k, 151, 217);
    } else {
      CofactorIsOne(g, k);
    }
  }

  /** The order of x is 32767. */
  lemma PeriodIffMultiple(d: nat)
    ensures Period(d) <==> d % ORDER == 0
  {
    KnownPowers();
    PeriodMultiple(ORDER, d / ORDER);
    if d % ORDER != 0 && Period(d) {
      ShortPeriod(d);
    }
  }

  /** The same from the register's top coefficient. */
  lemma TopPeriod(d: nat)
    ensures MulXn(0x8000, d) == 0x8000 <==> d % ORDER == 0
  {
    assert MulXn(1, 15) == 0x8000;
    MulXnAdd(1, 15, d);
    MulXnAdd(1, d, 15);
    PeriodIffMultiple(d);
    if MulXn(0x8000, d) == 0x8000 {
      MulXnInjective(MulXn(1, d), 1, 15);
    }
  }
}
