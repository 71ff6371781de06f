/** Polynomials over GF(2) and division by the CRC's generator. */
module Gf2 {

  /** A polynomial over GF(2): the exponents whose coefficient is 1. */
  type Poly = set<nat>

  function Add(p: Poly, q: Poly): (r: Poly)
    ensures forall e :: e in r <==> ((e in p) != (e in q))
  {
    (p - q) + (q - p)
  }

  /** `p` times x^k. */
  function Shift(p: Poly, k: nat): (r: Poly)
    ensures forall e :: e in r <==> k <= e && e - k in p
  {
    set e | e in p :: e + k
  }

  /** `q` times the generator x^16 + x^12 + x^5 + 1. */
  function TimesGenerator(q: Poly): Poly {
    Add(Add(Shift(q, 16), Shift(q, 12)), Add(Shift(q, 5), q))
  }

  /** `r` is what division of `p` by the generator leaves. */
  ghost predicate IsRemainder(p: Poly, r: Poly) {
    (forall e :: e in r ==> e < 16) && exists q: Poly :: p == Add(TimesGenerator(q), r)
  }

  /** `bit` times x^k. */
  function Term(bit: bool, k: nat): Poly {
    if bit then {k} else {}
  }

  lemma AddAssociative(p: Poly, q: Poly, r: Poly)
    ensures Add(Add(p, q), r) == Add(p, Add(q, r))
  {
  }

  lemma AddCommutes(p: Poly, q: Poly)
    ensures Add(p, q) == Add(q, p)
  {
  }

  lemma AddShuffle(a: Poly, b: Poly, c: Poly, d: Poly)
    ensures Add(Add(a, b), Add(c, d)) == Add(Add(a, c), Add(b, d))
  {
  }

  lemma ShiftAdd(p: Poly, q: Poly, k: nat)
    ensures Shift(Add(p, q), k) == Add(Shift(p, k), Shift(q, k))
  {
  }

  lemma ShiftShift(p: Poly, j: nat, k: nat)
    ensures Shift(Shift(p, j), k) == Shift(p, j + k)
  {
  }

  lemma ShiftTerm(bit: bool, j: nat, k: nat)
    ensures Shift(Term(bit, j), k) == Term(bit, j + k)
  {
  }

  lemma TimesGeneratorAdd(p: Poly, q: Poly)
    ensures TimesGenerator(Add(p, q)) == Add(TimesGenerator(p), TimesGenerator(q))
  {
    ShiftAdd(p, q, 16);
    ShiftAdd(p, q, 12);
    ShiftAdd(p, q, 5);
    AddShuffle(Shift(p, 16), Shift(q, 16), Shift(p, 12), Shift(q, 12));
    AddShuffle(Shift(p, 5), Shift(q, 5), p, q);
    AddShuffle(Add(Shift(p, 16), Shift(p, 12)), Add(Shift(q, 16), Shift(q, 12)),
               Add(Shift(p, 5), p), Add(Shift(q, 5), q));
  }

  lemma TimesGeneratorShift(q: Poly)
    ensures TimesGenerator(Shift(q, 1)) == Shift(TimesGenerator(q), 1)
  {
    ShiftAdd(Add(Shift(q, 16), Shift(q, 12)), Add(Shift(q, 5), q), 1);
    ShiftAdd(Shift(q, 16), Shift(q, 12), 1);
    ShiftAdd(Shift(q, 5), q, 1);
    ShiftShift(q, 16, 1);
    ShiftShift(q, 1, 16);
    ShiftShift(q, 12, 1);
    ShiftShift(q, 1, 12);
    ShiftShift(q, 5, 1);
    ShiftShift(q, 1, 5);
  }

  lemma GeneratorItself(bit: bool)
    ensures TimesGenerator(Term(bit, 0)) == if bit then {16, 12, 5, 0} else {}
  {
  }

  lemma ShiftedDividend(start: Poly, n: nat, m: Poly, bit: bool)
    ensures Add(Shift(start, n + 1), Shift(Add(Term(bit, 0), Shift(m, 1)), 16)) ==
            Add(Shift(Add(Shift(start, n), Shift(m, 16)), 1), Term(bit, 16))
  {
    ShiftAdd(Shift(start, n), Shift(m, 16), 1);
    ShiftShift(start, n, 1);
    ShiftAdd(Term(bit, 0), Shift(m, 1), 16);
    ShiftShift(m, 16, 1);
    ShiftShift(m, 1, 16);
    ShiftTerm(bit, 0, 16);
    AddCommutes(Term(bit, 16), Shift(m, 17));
    AddAssociative(Shift(start, n + 1), Shift(m, 17), Term(bit, 16));
  }

  /** What one more message bit does to a division already made. */
  lemma ExtendDivision(start: Poly, n: nat, m: Poly, q: Poly, r: Poly, bit: bool, next: Poly, top: bool)
    requires Add(Shift(start, n), Shift(m, 16)) == Add(TimesGenerator(q), r)
    requires Shift(Add(r, Term(bit, 15)), 1) == Add(next, TimesGenerator(Term(top, 0)))
    ensures Add(Shift(start, n + 1), Shift(Add(Term(bit, 0), Shift(m, 1)), 16)) ==
            Add(TimesGenerator(Add(Shift(q, 1), Term(top, 0))), next)
  {
    var t, g := Shift(TimesGenerator(q), 1), TimesGenerator(Term(top, 0));
    ShiftedDividend(start, n, m, bit);
    ShiftAdd(TimesGenerator(q), r, 1);
    ShiftAdd(r, Term(bit, 15), 1);
    ShiftTerm(bit, 15, 1);
    AddAssociative(t, Shift(r, 1), Term(bit, 16));
    AddCommutes(next, g);
    AddAssociative(t, g, next);
    TimesGeneratorAdd(Shift(q, 1), Term(top, 0));
    TimesGeneratorShift(q);
    hide TimesGenerator, Term;
  }

  // ------------------------------------------------------------------ uniqueness

  lemma {:induction false} GreatestExponent(q: Poly) returns (m: nat)
    requires q != {}
    ensures m in q && forall e :: e in q ==> e <= m
    decreases q
  {
    m :| m in q;
    var rest := q - {m};
    assert q == rest + {m};
    if rest != {} {
      var k := GreatestExponent(rest);
      m := if k < m then m else k;
    }
  }

  lemma DegreeOfMultiple(q: Poly) returns (e: nat)
    requires q != {}
    ensures e in TimesGenerator(q) && 16 <= e
  {
    var m := GreatestExponent(q);
    e := m + 16;
    assert e in Shift(q, 16) && e !in Shift(q, 12) && e !in Shift(q, 5) && e !in q;
  }

  lemma SameSum(t: Poly, t': Poly, r: Poly, r': Poly)
    requires Add(t, r) == Add(t', r')
    ensures Add(t, t') == Add(r, r')
  {
    forall e ensures e in Add(t, t') <==> e in Add(r, r') {
      assert e in Add(t, r) <==> e in Add(t', r');
    }
  }

  /** A polynomial has one remainder. */
  lemma RemainderUnique(p: Poly, r: Poly, r': Poly)
    requires IsRemainder(p, r) && IsRemainder(p, r')
    ensures r == r'
  {
    var q: Poly :| p == Add(TimesGenerator(q), r);
    var q': Poly :| p == Add(TimesGenerator(q'), r');
    var d := Add(q, q');
    TimesGeneratorAdd(q, q');
    SameSum(TimesGenerator(q), TimesGenerator(q'), r, r');
    if d != {} {
      var e := DegreeOfMultiple(d);
    } else {
      assert TimesGenerator(d) == {};
      forall e ensures e in r <==> e in r' {
        assert e !in Add(r, r');
      }
    }
  }

  // ------------------------------------------------------------------ parity

  predicate Odd(n: nat) {
    n % 2 == 1
  }

  lemma OddSum(a: nat, b: nat)
    ensures Odd(a + b) == (Odd(a) != Odd(b))
  {
  }

  lemma AddParity(p: Poly, q: Poly)
    ensures Odd(|Add(p, q)|) == (Odd(|p|) != Odd(|q|))
  {
    assert q * p == p * q;
    assert (p - q) !! (q - p);
    assert |p - q| == |p| - |p * q| && |q - p| == |q| - |p * q|;
    assert |Add(p, q)| + 2 * |p * q| == |p| + |q|;
    OddSum(|p|, |q|);
    assert Odd(|Add(p, q)| + 2 * |p * q|) == Odd(|Add(p, q)|);
  }

  lemma {:induction false} ShiftSize(p: Poly, k: nat)
    ensures |Shift(p, k)| == |p|
    decreases p
  {
    if p == {} {
      assert Shift(p, k) == {};
    } else {
      var e :| e in p;
      ShiftSize(p - {e}, k);
      assert Shift(p, k) == Shift(p - {e}, k) + {e + k};
    }
  }

  /** The generator has four terms, so every multiple has an even number. */
  lemma MultipleEven(q: Poly)
    ensures !Odd(|TimesGenerator(q)|)
  {
    ShiftSize(q, 16);
    ShiftSize(q, 12);
    ShiftSize(q, 5);
    AddParity(Shift(q, 16), Shift(q, 12));
    AddParity(Shift(q, 5), q);
    AddParity(Add(Shift(q, 16), Shift(q, 12)), Add(Shift(q, 5), q));
    hide Odd;
  }
}
