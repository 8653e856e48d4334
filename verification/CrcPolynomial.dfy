/**
  The section CRC as polynomial division over the field of two elements
  (Annex A of ISO/IEC 13818-1). A polynomial is the set of its exponents.
*/
module CrcPolynomial {
  import opened Crc

  type Poly = set<nat>

  /** x^32 + x^26 + x^23 + x^22 + x^16 + x^12 + x^11 + x^10 + x^8 + x^7 + x^5 + x^4 + x^2 + x + 1 */
  const GENERATOR: Poly := {32, 26, 23, 22, 16, 12, 11, 10, 8, 7, 5, 4, 2, 1, 0}

  function Plus(a: Poly, b: Poly): Poly { (a - b) + (b - a) }

  /** a times x^k. */
  function Times(a: Poly, k: nat): Poly { set e | e in a :: e + k }

  /** The generator times the sum of the powers of x in q. */
  function Multiple(q: seq<nat>): Poly {
    if q == [] then {} else Plus(Multiple(q[..|q| - 1]), Times(GENERATOR, q[|q| - 1]))
  }

  /** They leave the same remainder when divided by the generator. */
  ghost predicate Congruent(a: Poly, b: Poly) {
    exists q :: Plus(a, b) == Multiple(q)
  }

  ghost predicate IsRemainder(r: Poly, a: Poly) {
    (forall e :: e in r ==> e < 32) && Congruent(a, r)
  }

  // ----- words and messages as polynomials -----

  function Doubles(c: bv32, n: nat): bv32 {
    if n == 0 then c else Doubled(Doubles(c, n - 1))
  }

  /** The bit of x^e, which doubling brings to the top. */
  predicate Coefficient(c: bv32, e: nat) { e < 32 && TopSet(Doubles(c, 31 - e)) }

  /** The lowest n powers of the word. */
  function PolyBelow(c: bv32, n: nat): (r: Poly)
    requires n <= 32
    ensures forall e: nat :: e in r <==> e < n && Coefficient(c, e)
  {
    if n == 0 then {} else PolyBelow(c, n - 1) + if Coefficient(c, n - 1) then {n - 1} else {}
  }

  function PolyOf(c: bv32): Poly { PolyBelow(c, 32) }

  function BytePoly(b: bv8): Poly { PolyBelow(b as bv32, 8) }

  /** The message, its first bit the highest power. */
  function MessagePoly(data: seq<bv8>): Poly {
    if data == [] then {} else Plus(Times(MessagePoly(data[..|data| - 1]), 8), BytePoly(data[|data| - 1]))
  }

  /** 1 + x + ... + x^(n - 1) */
  function Ones(n: nat): (r: Poly)
    ensures forall e: nat :: e in r <==> e < n
  {
    if n == 0 then {} else Ones(n - 1) + {n - 1}
  }

  // ----- laws -----

  lemma TimesPlus(a: Poly, b: Poly, k: nat)
    ensures Times(Plus(a, b), k) == Plus(Times(a, k), Times(b, k))
  {
    forall e ensures e in Times(a, k) <==> e >= k && e - k in a {
      if e >= k && e - k in a { assert e == (e - k) + k; }
    }
    forall e ensures e in Times(b, k) <==> e >= k && e - k in b {
      if e >= k && e - k in b { assert e == (e - k) + k; }
    }
    forall e ensures e in Times(Plus(a, b), k) <==> e >= k && e - k in Plus(a, b) {
      if e >= k && e - k in Plus(a, b) { assert e == (e - k) + k; }
    }
  }

  lemma TimesTimes(a: Poly, j: nat, k: nat)
    ensures Times(Times(a, j), k) == Times(a, j + k)
  {
    forall e | e in Times(a, j + k) ensures e in Times(Times(a, j), k) {
      var d :| d in a && e == d + (j + k);
      assert d + j in Times(a, j);
    }
  }

  lemma PlusLaws(a: Poly, b: Poly, c: Poly)
    ensures Plus(a, b) == Plus(b, a) && Plus(Plus(a, b), c) == Plus(a, Plus(b, c))
    ensures Plus(a, a) == {} && Plus({}, a) == a
  {
  }

  lemma {:induction false} MultipleTimes(q: seq<nat>, k: nat)
    ensures Times(Multiple(q), k) == Multiple(seq(|q|, i requires 0 <= i < |q| => q[i] + k))
  {
    hide GENERATOR, Plus;
    var up := seq(|q|, i requires 0 <= i < |q| => q[i] + k);
    if q == [] {
      assert Times({}, k) == {};
    } else {
      var n := |q| - 1;
      hide Times;
      MultipleTimes(q[..n], k);
      assert up[..n] == seq(|q[..n]|, i requires 0 <= i < |q[..n]| => q[..n][i] + k);
      TimesPlus(Multiple(q[..n]), Times(GENERATOR, q[n]), k);
      TimesTimes(GENERATOR, q[n], k);
    }
  }

  lemma {:induction false} MultipleConcat(p: seq<nat>, q: seq<nat>)
    ensures Multiple(p + q) == Plus(Multiple(p), Multiple(q))
  {
    hide Plus, Times, GENERATOR;
    if q == [] {
      assert p + q == p;
      PlusLaws({}, Multiple(p), {});
      PlusLaws(Multiple(p), {}, {});
    } else {
      var n := |q| - 1;
      assert (p + q)[..|p + q| - 1] == p + q[..n];
      MultipleConcat(p, q[..n]);
      PlusLaws(Multiple(p), Multiple(q[..n]), Times(GENERATOR, q[n]));
    }
  }

  lemma SamesCongruent(a: Poly)
    ensures Congruent(a, a)
  {
    assert Plus(a, a) == Multiple([]);
  }

  lemma CongruentTimes(a: Poly, b: Poly, k: nat)
    requires Congruent(a, b)
    ensures Congruent(Times(a, k), Times(b, k))
  {
    var q :| Plus(a, b) == Multiple(q);
    MultipleTimes(q, k);
    TimesPlus(a, b, k);
  }

  lemma CongruentPlus(a: Poly, b: Poly, c: Poly, d: Poly)
    requires Congruent(a, b) && Congruent(c, d)
    ensures Congruent(Plus(a, c), Plus(b, d))
  {
    var p :| Plus(a, b) == Multiple(p);
    var q :| Plus(c, d) == Multiple(q);
    MultipleConcat(p, q);
    assert Plus(Plus(a, c), Plus(b, d)) == Plus(Plus(a, b), Plus(c, d));
  }

  lemma CongruentTrans(a: Poly, b: Poly, c: Poly)
    requires Congruent(a, b) && Congruent(b, c)
    ensures Congruent(a, c)
  {
    var p :| Plus(a, b) == Multiple(p);
    var q :| Plus(b, c) == Multiple(q);
    MultipleConcat(p, q);
    assert Plus(a, c) == Plus(Plus(a, b), Plus(b, c));
  }

  // ----- the register -----

  /** The next eight doublings bring the top eight bits up and leave the word moved by eight. */
  lemma DoublesAre(c: bv32, n: nat)
    ensures var d := Doubles(c, n);
      && (TopSet(Doubles(c, n + 0)) <==> d & 0x8000_0000 != 0)
      && (TopSet(Doubles(c, n + 1)) <==> d & 0x4000_0000 != 0)
      && (TopSet(Doubles(c, n + 2)) <==> d & 0x2000_0000 != 0)
      && (TopSet(Doubles(c, n + 3)) <==> d & 0x1000_0000 != 0)
      && (TopSet(Doubles(c, n + 4)) <==> d & 0x0800_0000 != 0)
      && (TopSet(Doubles(c, n + 5)) <==> d & 0x0400_0000 != 0)
      && (TopSet(Doubles(c, n + 6)) <==> d & 0x0200_0000 != 0)
      && (TopSet(Doubles(c, n + 7)) <==> d & 0x0100_0000 != 0)
      && Doubles(c, n + 8) == d << 8
  {
    hide Doubled, TopSet;
    var d := Doubles(c, n);
    EightBits(d);
    EightOn(d);
    assert Doubles(c, n + 1) == Doubled(Doubles(c, n + 0));
    assert Doubles(c, n + 2) == Doubled(Doubles(c, n + 1));
    assert Doubles(c, n + 3) == Doubled(Doubles(c, n + 2));
    assert Doubles(c, n + 4) == Doubled(Doubles(c, n + 3));
    assert Doubles(c, n + 5) == Doubled(Doubles(c, n + 4));
    assert Doubles(c, n + 6) == Doubled(Doubles(c, n + 5));
    assert Doubles(c, n + 7) == Doubled(Doubles(c, n + 6));
    assert Doubles(c, n + 8) == Doubled(Doubles(c, n + 7));
  }

  lemma EightBits(d: bv32)
    ensures TopSet(d) <==> d & 0x8000_0000 != 0
    ensures TopSet(Doubled(d)) <==> d & 0x4000_0000 != 0
    ensures TopSet(Doubled(Doubled(d))) <==> d & 0x2000_0000 != 0
    ensures TopSet(Doubled(Doubled(Doubled(d)))) <==> d & 0x1000_0000 != 0
    ensures TopSet(Doubled(Doubled(Doubled(Doubled(d))))) <==> d & 0x0800_0000 != 0
    ensures TopSet(Doubled(Doubled(Doubled(Doubled(Doubled(d)))))) <==> d & 0x0400_0000 != 0
    ensures TopSet(Doubled(Doubled(Doubled(Doubled(Doubled(Doubled(d))))))) <==> d & 0x0200_0000 != 0
    ensures TopSet(Doubled(Doubled(Doubled(Doubled(Doubled(Doubled(Doubled(d)))))))) <==> d & 0x0100_0000 != 0
  {
  }

  lemma EightOn(d: bv32)
    ensures Doubled(Doubled(Doubled(Doubled(Doubled(Doubled(Doubled(Doubled(d)))))))) == d << 8
  {
  }

  lemma GeneratorBits(e: nat)
    requires e < 32
    ensures Coefficient(POLY, e) <==> e in GENERATOR
  {
    DoublesAre(POLY, 0);
    DoublesAre(POLY, 8);
    DoublesAre(POLY, 16);
    DoublesAre(POLY, 24);
    assert Doubles(POLY, 0) == 0x04C1_1DB7 && Doubles(POLY, 8) == 0xC11D_B700;
    assert Doubles(POLY, 16) == 0x1DB7_0000 && Doubles(POLY, 24) == 0xB700_0000;
    hide Doubles;
    assert e == 0 || e == 1 || e == 2 || e == 3 || e == 4 || e == 5 || e == 6 || e == 7
      || e == 8 || e == 9 || e == 10 || e == 11 || e == 12 || e == 13 || e == 14 || e == 15
      || e == 16 || e == 17 || e == 18 || e == 19 || e == 20 || e == 21 || e == 22 || e == 23
      || e == 24 || e == 25 || e == 26 || e == 27 || e == 28 || e == 29 || e == 30 || e == 31;
  }

  lemma {:induction false} DoublesTwice(c: bv32, n: nat)
    ensures Doubles(Doubled(c), n) == Doubles(c, n + 1)
  {
    hide Doubled;
    if n > 0 { DoublesTwice(c, n - 1); }
  }

  lemma {:induction false} DoublesAdd(a: bv32, b: bv32, n: nat)
    ensures Doubles(Add(a, b), n) == Add(Doubles(a, n), Doubles(b, n))
  {
    if n > 0 {
      DoublesAdd(a, b, n - 1);
      DoubledAdd(Doubles(a, n - 1), Doubles(b, n - 1));
    }
    hide Add, Doubled;
  }

  lemma PolyAdd(a: bv32, b: bv32)
    ensures PolyOf(Add(a, b)) == Plus(PolyOf(a), PolyOf(b))
  {
    hide Add, TopSet, Doubles;
    forall e: nat | e < 32 ensures Coefficient(Add(a, b), e) <==> Coefficient(a, e) != Coefficient(b, e) {
      DoublesAdd(a, b, 31 - e);
      DoubledAdd(Doubles(a, 31 - e), Doubles(b, 31 - e));
    }
  }

  lemma NoneAfterAll(c: bv32)
    ensures Doubles(c, 32) == 0
  {
    DoublesAre(c, 0);
    DoublesAre(c, 8);
    DoublesAre(c, 16);
    DoublesAre(c, 24);
    assert Doubles(c, 0) == c;
    hide Doubles;
    AllOut(c);
  }

  lemma {:induction false} NoneAfter(c: bv32, n: nat)
    requires n >= 32
    ensures !TopSet(Doubles(c, n))
  {
    ZeroAfter(c, n);
    hide Doubles;
  }

  lemma {:induction false} ZeroAfter(c: bv32, n: nat)
    requires n >= 32
    ensures Doubles(c, n) == 0
  {
    if n == 32 {
      NoneAfterAll(c);
    } else {
      ZeroAfter(c, n - 1);
    }
  }

  lemma AllOut(c: bv32)
    ensures (((c << 8) << 8) << 8) << 8 == 0
  {
  }

  /** Doubling a word is times x, without the x^32 its top bit would give. */
  lemma PolyDoubled(c: bv32)
    ensures PolyOf(Doubled(c)) == Times(PolyOf(c), 1) - {32}
    ensures TopSet(c) <==> 32 in Times(PolyOf(c), 1)
  {
    hide TopSet, Doubled;
    forall e: nat | e < 32 ensures Coefficient(Doubled(c), e) <==> e > 0 && Coefficient(c, e - 1) {
      DoublesTwice(c, 31 - e);
      NoneAfter(c, 32);
    }
    assert TopSet(c) <==> Coefficient(c, 31);
    hide Coefficient;
    forall e: nat ensures e in Times(PolyOf(c), 1) <==> e > 0 && e - 1 in PolyOf(c) {
      if e > 0 && e - 1 in PolyOf(c) { assert e == (e - 1) + 1; }
    }
  }

  lemma PolyGenerator()
    ensures PolyOf(POLY) == GENERATOR - {32}
  {
    GeneratorTop();
    hide Coefficient, GENERATOR;
    forall e: nat ensures e in PolyOf(POLY) <==> e in GENERATOR && e != 32 {
      if e < 32 { GeneratorBits(e); }
    }
  }

  lemma GeneratorTop()
    ensures 32 in GENERATOR && forall e :: e in GENERATOR ==> e <= 32
  {
  }

  /** A register step is times x, up to a multiple of the generator. */
  lemma ShiftTimes(c: bv32)
    ensures Congruent(Times(PolyOf(c), 1), PolyOf(Shift(c)))
  {
    hide PolyOf, Doubled, TopSet, Add, Plus, Times, Multiple;
    var up := Times(PolyOf(c), 1);
    PolyDoubled(c);
    if TopSet(c) {
      PolyGenerator();
      PolyAdd(Doubled(c), POLY);
      OneGenerator();
      TopCancels(up, GENERATOR);
      assert Plus(up, PolyOf(Shift(c))) == Multiple([0]);
    } else {
      assert up - {32} == up;
      SamesCongruent(up);
    }
    hide GENERATOR;
  }

  lemma TopCancels(a: Poly, g: Poly)
    requires 32 in a && 32 in g
    ensures Plus(a, Plus(a - {32}, g - {32})) == g
  {
  }

  lemma OneGenerator()
    ensures Multiple([0]) == GENERATOR
  {
    assert [0][..0] == [];
    assert Times(GENERATOR, 0) == GENERATOR;
  }

  lemma {:induction false} ShiftsTimes(c: bv32, k: nat)
    ensures Congruent(Times(PolyOf(c), k), PolyOf(Shifts(c, k)))
  {
    hide PolyOf, Shift, Congruent;
    if k == 0 {
      assert Times(PolyOf(c), 0) == PolyOf(c);
      SamesCongruent(PolyOf(c));
    } else {
      var r := Shifts(c, k - 1);
      ShiftsTimes(c, k - 1);
      CongruentTimes(Times(PolyOf(c), k - 1), PolyOf(r), 1);
      TimesTimes(PolyOf(c), k - 1, 1);
      ShiftTimes(r);
      CongruentTrans(Times(PolyOf(c), k), Times(PolyOf(r), 1), PolyOf(Shift(r)));
    }
  }

  lemma TopDoubles(b: bv8)
    ensures Top(b) == Doubles(b as bv32, 24)
  {
    DoublesAre(b as bv32, 0);
    DoublesAre(b as bv32, 8);
    DoublesAre(b as bv32, 16);
  }

  lemma TopBits(b: bv8, e: nat)
    requires e < 32
    ensures Coefficient(Top(b), e) <==> e >= 24 && Coefficient(b as bv32, e - 24)
  {
    TopDoubles(b);
    hide Top, TopSet, Doubles;
    DoublesMore(b as bv32, 24, 31 - e);
    if e < 24 {
      NoneAfter(b as bv32, 55 - e);
    }
  }

  lemma TopPoly(b: bv8)
    ensures PolyOf(Top(b)) == Times(BytePoly(b), 24)
  {
    hide Top, Coefficient;
    forall e: nat ensures e in PolyOf(Top(b)) <==> e >= 24 && e - 24 in BytePoly(b) {
      if e < 32 { TopBits(b, e); }
    }
    forall e: nat | e >= 24 && e - 24 in BytePoly(b) ensures e in Times(BytePoly(b), 24) {
      assert e == (e - 24) + 24;
    }
  }

  lemma {:induction false} DoublesMore(c: bv32, m: nat, n: nat)
    ensures Doubles(Doubles(c, m), n) == Doubles(c, m + n)
  {
    hide Doubled;
    if n > 0 { DoublesMore(c, m, n - 1); }
  }

  lemma OnesBits(e: nat)
    requires e < 32
    ensures Coefficient(INIT, e)
  {
    DoublesAre(INIT, 0);
    DoublesAre(INIT, 8);
    DoublesAre(INIT, 16);
    DoublesAre(INIT, 24);
    assert Doubles(INIT, 0) == 0xFFFF_FFFF && Doubles(INIT, 8) == 0xFFFF_FF00;
    assert Doubles(INIT, 16) == 0xFFFF_0000 && Doubles(INIT, 24) == 0xFF00_0000;
    hide Doubles;
    assert e == 0 || e == 1 || e == 2 || e == 3 || e == 4 || e == 5 || e == 6 || e == 7
      || e == 8 || e == 9 || e == 10 || e == 11 || e == 12 || e == 13 || e == 14 || e == 15
      || e == 16 || e == 17 || e == 18 || e == 19 || e == 20 || e == 21 || e == 22 || e == 23
      || e == 24 || e == 25 || e == 26 || e == 27 || e == 28 || e == 29 || e == 30 || e == 31;
  }

  lemma OnesPoly()
    ensures PolyOf(INIT) == Ones(32)
  {
    forall e: nat | e < 32 ensures Coefficient(INIT, e) {
      OnesBits(e);
    }
    hide Coefficient;
  }

  // ----- the whole division -----

  /** What the register of the bytes is the remainder of: the message times x^32, its first 32 bits inverted. */
  function Dividend(data: seq<bv8>): Poly {
    Plus(Times(MessagePoly(data), 32), Times(Ones(32), 8 * |data|))
  }

  lemma {:induction false} RegisterCongruent(data: seq<bv8>)
    ensures Congruent(Dividend(data), PolyOf(Run(INIT, data)))
  {
    hide PolyOf, Congruent, Top, Shifts, Add, BytePoly;
    if data == [] {
      OnesPoly();
      NoMessage(data);
      SamesCongruent(Ones(32));
    } else {
      var before, b := data[..|data| - 1], data[|data| - 1];
      var r := Run(INIT, before);
      RegisterCongruent(before);
      var fed := Add(r, Top(b));
      PolyAdd(r, Top(b));
      TopPoly(b);
      SamesCongruent(Times(BytePoly(b), 24));
      CongruentPlus(Dividend(before), PolyOf(r), Times(BytePoly(b), 24), Times(BytePoly(b), 24));
      var sum := Plus(Dividend(before), Times(BytePoly(b), 24));
      CongruentTimes(sum, PolyOf(fed), 8);
      ShiftsTimes(fed, 8);
      CongruentTrans(Times(sum, 8), Times(PolyOf(fed), 8), PolyOf(Shifts(fed, 8)));
      NextDividend(before, b);
      assert before + [b] == data;
    }
  }

  lemma NoMessage(data: seq<bv8>)
    requires data == []
    ensures Dividend(data) == Ones(32)
  {
    assert Times({}, 32) == {} && Times(Ones(32), 0) == Ones(32);
  }

  lemma NextDividend(before: seq<bv8>, b: bv8)
    ensures Times(Plus(Dividend(before), Times(BytePoly(b), 24)), 8) == Dividend(before + [b])
  {
    hide Plus, Times, Ones, BytePoly;
    var m, o, p := MessagePoly(before), Ones(32), BytePoly(b);
    var n := 8 * |before|;
    TimesPlus(Plus(Times(m, 32), Times(o, n)), Times(p, 24), 8);
    TimesPlus(Times(m, 32), Times(o, n), 8);
    TimesTimes(m, 32, 8);
    TimesTimes(o, n, 8);
    TimesTimes(p, 24, 8);
    assert (before + [b])[..|before|] == before;
    TimesPlus(Times(m, 8), p, 32);
    TimesTimes(m, 8, 32);
    SwapLast(Times(m, 40), Times(o, n + 8), Times(p, 32));
  }

  lemma SwapLast(a: Poly, b: Poly, c: Poly)
    ensures Plus(Plus(a, b), c) == Plus(Plus(a, c), b)
  {
  }

  /** The CRC of any bytes is the remainder of the division by the generator of Annex A. */
  lemma CrcIsRemainder(data: seq<bv8>)
    ensures IsRemainder(PolyOf(Run(INIT, data)), Dividend(data))
  {
    RegisterCongruent(data);
  }

  // ----- there is one remainder -----

  function Without(q: seq<nat>, top: nat): (r: seq<nat>)
    ensures (forall i :: 0 <= i < |q| ==> q[i] <= top) ==> forall i :: 0 <= i < |r| ==> r[i] < top
  {
    if q == [] then []
    else
      var r := Without(q[..|q| - 1], top);
      if q[|q| - 1] == top then r else r + [q[|q| - 1]]
  }

  predicate Odd(q: seq<nat>, top: nat) {
    q != [] && Odd(q[..|q| - 1], top) != (q[|q| - 1] == top)
  }

  lemma {:induction false} MultipleParts(q: seq<nat>, top: nat)
    ensures Multiple(q) == Plus(Multiple(Without(q, top)), if Odd(q, top) then Times(GENERATOR, top) else {})
  {
    hide GENERATOR, Times, Plus;
    if q == [] {
      PlusLaws({}, {}, {});
    } else {
      var init, last := q[..|q| - 1], q[|q| - 1];
      MultipleParts(init, top);
      var r := Without(init, top);
      var m, t, g := Multiple(r), Times(GENERATOR, top), Times(GENERATOR, last);
      assert Multiple(q) == Plus(Multiple(init), g);
      PlusLaws(m, t, t);
      PlusLaws(t, m, g);
      PlusLaws(m, g, t);
      PlusLaws(m, t, g);
      PlusLaws(t, g, m);
      PlusLaws(m, {}, {});
      PlusLaws({}, m, {});
      PlusLaws(Plus(m, g), {}, {});
      PlusLaws({}, Plus(m, g), {});
      if last != top {
        assert (r + [last])[..|r|] == r;
        assert Multiple(Without(q, top)) == Plus(m, g);
      }
    }
  }

  lemma {:induction false} TopOf(q: seq<nat>, top: nat)
    requires forall i :: 0 <= i < |q| ==> q[i] < top
    ensures top + 32 !in Multiple(q)
  {
    if q != [] {
      TopOf(q[..|q| - 1], top);
      assert forall e :: e in GENERATOR ==> e <= 32;
      hide GENERATOR;
    }
  }

  /** A multiple of the generator that is not zero has a power from x^32 on. */
  lemma {:induction false} MultipleHasTop(q: seq<nat>, top: nat)
    requires forall i :: 0 <= i < |q| ==> q[i] <= top
    ensures Multiple(q) == {} || exists e :: e in Multiple(q) && e >= 32
    decreases top
  {
    var r := Without(q, top);
    MultipleParts(q, top);
    TopOf(r, top);
    assert 32 + top in Times(GENERATOR, top);
    if Odd(q, top) {
      assert top + 32 in Multiple(q);
    } else if top > 0 {
      MultipleHasTop(r, top - 1);
    } else {
      assert r == [];
    }
  }

  function Most(q: seq<nat>): (top: nat)
    ensures forall i :: 0 <= i < |q| ==> q[i] <= top
  {
    if q == [] then 0
    else
      var top := Most(q[..|q| - 1]);
      if q[|q| - 1] > top then q[|q| - 1] else top
  }

  /** A polynomial has one remainder. */
  lemma RemainderUnique(a: Poly, r: Poly, s: Poly)
    requires IsRemainder(r, a) && IsRemainder(s, a)
    ensures r == s
  {
    var p :| Plus(a, r) == Multiple(p);
    var q :| Plus(a, s) == Multiple(q);
    MultipleConcat(p, q);
    assert Plus(r, s) == Plus(Plus(a, r), Plus(a, s));
    MultipleHasTop(p + q, Most(p + q));
    assert Plus(r, s) == {};
  }
}
