/** The CRC-32 that ends every service information section. */
module Crc {
  const INIT: bv32 := 0xFFFF_FFFF
  const POLY: bv32 := 0x04C1_1DB7

  // The word operations have names of their own, so that proofs can use their laws without their bits.

  function Add(a: bv32, b: bv32): bv32 { a ^ b }

  function Doubled(c: bv32): bv32 { c << 1 }

  predicate TopSet(c: bv32) { c & 0x8000_0000 != 0 }

  function Top(b: bv8): bv32 { (b as bv32) << 24 }

  function Word(b0: bv8, b1: bv8, b2: bv8, b3: bv8): bv32 {
    ((b0 as bv32) << 24) | ((b1 as bv32) << 16) | ((b2 as bv32) << 8) | (b3 as bv32)
  }

  /** One bit of the register. */
  function Shift(c: bv32): bv32 {
    if TopSet(c) then Add(Doubled(c), POLY) else Doubled(c)
  }

  function Shifts(c: bv32, k: nat): bv32 {
    if k == 0 then c else Shift(Shifts(c, k - 1))
  }

  function Run(c: bv32, data: seq<bv8>): bv32 {
    if data == [] then c
    else Shifts(Add(Run(c, data[..|data| - 1]), Top(data[|data| - 1])), 8)
  }

  lemma RunNext(data: seq<bv8>, i: nat)
    requires i < |data|
    ensures Run(INIT, data[..i + 1]) == Shifts(Run(INIT, data[..i]) ^ ((data[i] as bv32) << 24), 8)
  {
    hide Shifts;
    assert data[..i + 1][..i] == data[..i];
  }

  lemma ShiftIs(c: bv32)
    ensures Shift(c) == if c & 0x8000_0000 != 0 then (c << 1) ^ POLY else c << 1
  {
  }

  lemma ShiftsNext(c: bv32, k: nat)
    ensures Shifts(c, k + 1) == Shift(Shifts(c, k))
  {
    hide Shift;
  }

  method CRC(data: seq<bv8>) returns (crc: bv32)
    ensures crc == Run(INIT, data)
  {
    hide Run, Shifts, Shift;
    crc := INIT;
    assert Run(INIT, data[..0]) == INIT by { EmptyRun(data[..0]); }
    for i := 0 to |data|
      invariant crc == Run(INIT, data[..i])
    {
      crc := crc ^ ((data[i] as bv32) << 24);
      ghost var before := crc;
      NoShifts(before);
      for k := 0 to 8
        invariant crc == Shifts(before, k)
      {
        ShiftsNext(before, k);
        ShiftIs(crc);
        if crc & 0x8000_0000 != 0 {
          crc := (crc << 1) ^ POLY;
        } else {
          crc := crc << 1;
        }
      }
      RunNext(data, i);
    }
    assert data[..|data|] == data;
  }

  lemma EmptyRun(data: seq<bv8>)
    ensures data == [] ==> Run(INIT, data) == INIT
  {
  }

  lemma NoShifts(c: bv32)
    ensures Shifts(c, 0) == c
  {
  }

  function BigEndian(b: seq<bv8>): bv32
    requires |b| == 4
  {
    Word(b[0], b[1], b[2], b[3])
  }

  /** The section ends in the register its earlier bytes leave. */
  predicate Good(section: seq<bv8>) {
    |section| >= 4 && Run(INIT, section[..|section| - 4]) == BigEndian(section[|section| - 4..])
  }

  method CrcOk(section: seq<bv8>) returns (ok: bool)
    ensures ok == Good(section)
  {
    if |section| < 4 {
      return false;
    }
    var crc := CRC(section[..|section| - 4]);
    return crc == BigEndian(section[|section| - 4..]);
  }

  // ----- laws of the word operations -----

  lemma AddComm(x: bv32, y: bv32)
    ensures Add(x, y) == Add(y, x)
  {
  }

  lemma XorAssoc(x: bv32, y: bv32, z: bv32)
    ensures (x ^ y) ^ z == x ^ (y ^ z)
  {
  }

  lemma AddAssoc(x: bv32, y: bv32, z: bv32)
    ensures Add(Add(x, y), z) == Add(x, Add(y, z))
  {
    XorAssoc(x, y, z);
  }

  lemma AddLaws(x: bv32, y: bv32, a: bv32, b: bv32)
    ensures Add(Add(x, y), Add(a, b)) == Add(Add(x, a), Add(y, b))
  {
    hide Add;
    AddAssoc(x, y, Add(a, b));
    AddAssoc(y, a, b);
    AddComm(y, a);
    AddAssoc(a, y, b);
    AddAssoc(x, a, Add(y, b));
  }

  lemma XorZero(a: bv32, b: bv32)
    ensures a ^ b == 0 <==> a == b
    ensures 0 ^ a == a && a ^ 0 == a
  {
  }

  lemma AddCancels(a: bv32, b: bv32)
    ensures Add(a, b) == 0 <==> a == b
    ensures Add(0, a) == a && Add(a, 0) == a
  {
    XorZero(a, b);
  }

  lemma ShiftXor(a: bv32, b: bv32)
    ensures (a ^ b) << 1 == (a << 1) ^ (b << 1)
  {
  }

  lemma MaskXor(a: bv32, b: bv32)
    ensures (a ^ b) & 0x8000_0000 != 0 <==> (a & 0x8000_0000 != 0) != (b & 0x8000_0000 != 0)
  {
  }

  lemma DoubledAdd(a: bv32, b: bv32)
    ensures Doubled(Add(a, b)) == Add(Doubled(a), Doubled(b))
    ensures TopSet(Add(a, b)) <==> TopSet(a) != TopSet(b)
  {
    ShiftXor(a, b);
    MaskXor(a, b);
  }

  lemma TopAdd(a: bv8, b: bv8)
    ensures Top(a ^ b) == Add(Top(a), Top(b))
  {
  }

  /** The polynomial is odd and a doubled word is even. */
  lemma ShiftInjective(a: bv32)
    ensures Shift(a) == 0 <==> a == 0
  {
  }

  lemma ShiftLinear(a: bv32, b: bv32)
    ensures Shift(Add(a, b)) == Add(Shift(a), Shift(b))
  {
    DoubledAdd(a, b);
    var x, y := Doubled(a), Doubled(b);
    AddLaws(x, y, POLY, POLY);
    AddLaws(x, y, POLY, 0);
    AddLaws(x, y, 0, POLY);
    AddCancels(POLY, POLY);
    AddCancels(x, y);
    AddCancels(y, y);
    AddCancels(Add(x, y), POLY);
    hide Add, Doubled, TopSet;
  }

  lemma {:induction false} ShiftsLinear(a: bv32, b: bv32, k: nat)
    ensures Shifts(Add(a, b), k) == Add(Shifts(a, k), Shifts(b, k))
  {
    hide Shift, Add;
    if k > 0 {
      ShiftsLinear(a, b, k - 1);
      ShiftLinear(Shifts(a, k - 1), Shifts(b, k - 1));
    }
  }

  lemma {:induction false} ShiftsInjective(a: bv32, k: nat)
    ensures Shifts(a, k) == 0 <==> a == 0
  {
    hide Shift;
    if k > 0 {
      ShiftsInjective(a, k - 1);
      ShiftInjective(Shifts(a, k - 1));
    }
  }

  lemma {:induction false} ShiftsAdd(a: bv32, j: nat, k: nat)
    ensures Shifts(Shifts(a, j), k) == Shifts(a, j + k)
  {
    hide Shift;
    if k > 0 { ShiftsAdd(a, j, k - 1); }
  }

  lemma {:induction false} RunConcat(c: bv32, a: seq<bv8>, b: seq<bv8>)
    ensures Run(c, a + b) == Run(Run(c, a), b)
  {
    hide Shifts, Add, Top;
    if b == [] {
      assert a + b == a;
    } else {
      assert (a + b)[..|a + b| - 1] == a + b[..|b| - 1];
      RunConcat(c, a, b[..|b| - 1]);
    }
  }

  // ----- four bytes are one word -----

  /** A byte eight shifts short of the top gets there unchanged. */
  lemma ByteRises(c: bv32)
    requires c & 0xFF00_0000 == 0
    ensures Shifts(c, 8) == c << 8
  {
    assert Shifts(c, 1) == c << 1;
    assert Shifts(c, 2) == c << 2;
    assert Shifts(c, 3) == c << 3;
    assert Shifts(c, 4) == c << 4;
    assert Shifts(c, 5) == c << 5;
    assert Shifts(c, 6) == c << 6;
    assert Shifts(c, 7) == c << 7;
  }

  /** The bytes of a word, each in its own place. */
  function Low(b: bv8, place: nat): bv32
    requires 1 <= place <= 3
  {
    if place == 1 then (b as bv32) << 16 else if place == 2 then (b as bv32) << 8 else b as bv32
  }

  lemma LowFacts(b: bv8)
    ensures Low(b, 3) & 0xFF00_0000 == 0 && Low(b, 3) << 8 == Low(b, 2)
    ensures Low(b, 2) & 0xFF00_0000 == 0 && Low(b, 2) << 8 == Low(b, 1)
    ensures Low(b, 1) & 0xFF00_0000 == 0 && Low(b, 1) << 8 == Top(b)
  {
  }

  lemma LowRises(b: bv8, place: nat)
    requires 1 <= place <= 3
    ensures Shifts(Low(b, place), 8 * place) == Top(b)
  {
    LowFacts(b);
    hide Low, Shifts, Top;
    ByteRises(Low(b, place));
    if place >= 2 {
      ByteRises(Low(b, place - 1));
      ShiftsAdd(Low(b, place), 8, 8);
    }
    if place == 3 {
      ByteRises(Low(b, 1));
      ShiftsAdd(Low(b, 3), 16, 8);
    }
  }

  /** A byte taken in after the register shifted equals the byte waiting in its place from the start. */
  lemma Absorb(x: bv32, b: bv8, place: nat)
    requires 1 <= place <= 3
    ensures Shifts(Add(Shifts(x, 8 * place), Top(b)), 8) == Shifts(Add(x, Low(b, place)), 8 * place + 8)
  {
    LowRises(b, place);
    hide Shifts, Add, Top, Low;
    ShiftsLinear(x, Low(b, place), 8 * place);
    ShiftsAdd(Add(x, Low(b, place)), 8 * place, 8);
  }

  lemma WordIsSum(c: bv32, b0: bv8, b1: bv8, b2: bv8, b3: bv8)
    ensures Add(Add(Add(Add(c, Top(b0)), Low(b1, 1)), Low(b2, 2)), Low(b3, 3)) == Add(c, Word(b0, b1, b2, b3))
  {
  }

  lemma FourBytes(c: bv32, w: seq<bv8>)
    requires |w| == 4
    ensures Run(c, w) == Shifts(Add(c, BigEndian(w)), 32)
  {
    hide Shifts, Top, Word, Add, Low;
    assert w[..4] == w && w[..4][..3] == w[..3] && w[..3][..2] == w[..2] && w[..2][..1] == w[..1] && w[..1][..0] == [];
    var x0 := Add(c, Top(w[0]));
    var x1 := Add(x0, Low(w[1], 1));
    var x2 := Add(x1, Low(w[2], 2));
    var x3 := Add(x2, Low(w[3], 3));
    assert Run(c, w[..1]) == Shifts(x0, 8);
    Absorb(x0, w[1], 1);
    assert Run(c, w[..2]) == Shifts(Add(Run(c, w[..1]), Top(w[1])), 8) == Shifts(x1, 16);
    Absorb(x1, w[2], 2);
    assert Run(c, w[..3]) == Shifts(Add(Run(c, w[..2]), Top(w[2])), 8) == Shifts(x2, 24);
    Absorb(x2, w[3], 3);
    assert Run(c, w) == Shifts(Add(Run(c, w[..3]), Top(w[3])), 8) == Shifts(x3, 32);
    WordIsSum(c, w[0], w[1], w[2], w[3]);
  }

  /** A section passes exactly when the register over all of it, trailer included, ends at zero. */
  lemma GoodIsZeroRemainder(section: seq<bv8>)
    ensures Good(section) <==> |section| >= 4 && Run(INIT, section) == 0
  {
    hide Run, BigEndian, Add, Shifts;
    if |section| >= 4 {
      var head, tail := section[..|section| - 4], section[|section| - 4..];
      assert section == head + tail;
      RunConcat(INIT, head, tail);
      var c := Run(INIT, head);
      FourBytes(c, tail);
      ShiftsInjective(Add(c, BigEndian(tail)), 32);
      AddCancels(c, BigEndian(tail));
    }
  }

  // ----- what it catches -----

  function Xor(a: seq<bv8>, b: seq<bv8>): (e: seq<bv8>)
    requires |a| == |b|
    ensures |e| == |a| && forall i :: 0 <= i < |a| ==> e[i] == a[i] ^ b[i]
  {
    seq(|a|, i requires 0 <= i < |a| => a[i] ^ b[i])
  }

  lemma {:induction false} RunLinear(c: bv32, d: bv32, a: seq<bv8>, b: seq<bv8>)
    requires |a| == |b|
    ensures Run(Add(c, d), Xor(a, b)) == Add(Run(c, a), Run(d, b))
  {
    hide Top, Add, Shifts;
    if a != [] {
      var n := |a| - 1;
      RunLinear(c, d, a[..n], b[..n]);
      XorPrefix(a, b);
      RunStep(Run(c, a[..n]), Run(d, b[..n]), a[n], b[n]);
    }
  }

  lemma XorPrefix(a: seq<bv8>, b: seq<bv8>)
    requires |a| == |b| > 0
    ensures Xor(a, b)[..|a| - 1] == Xor(a[..|a| - 1], b[..|a| - 1])
    ensures Xor(a, b)[|a| - 1] == a[|a| - 1] ^ b[|a| - 1]
  {
  }

  lemma RunStep(x: bv32, y: bv32, a: bv8, b: bv8)
    ensures Shifts(Add(Add(x, y), Top(a ^ b)), 8) == Add(Shifts(Add(x, Top(a)), 8), Shifts(Add(y, Top(b)), 8))
  {
    TopAdd(a, b);
    hide Top, Add, Shifts;
    AddLaws(x, y, Top(a), Top(b));
    ShiftsLinear(Add(x, Top(a)), Add(y, Top(b)), 8);
  }

  predicate Zeros(e: seq<bv8>) {
    forall i :: 0 <= i < |e| ==> e[i] == 0
  }

  lemma TopZero()
    ensures Top(0) == 0
  {
  }

  /** Zero bytes never bring the register to zero or away from it. */
  lemma {:induction false} RunZeros(c: bv32, e: seq<bv8>)
    requires Zeros(e)
    ensures Run(c, e) == 0 <==> c == 0
  {
    TopZero();
    hide Top, Add, Shifts;
    if e != [] {
      var before := Run(c, e[..|e| - 1]);
      RunZeros(c, e[..|e| - 1]);
      AddCancels(before, 0);
      ShiftsInjective(before, 8);
    }
  }

  lemma XorByte(a: bv8, b: bv8)
    ensures a ^ b == 0 <==> a == b
  {
  }

  lemma NonzeroBytes(b0: bv8, b1: bv8, b2: bv8, b3: bv8)
    ensures Word(b0, b1, b2, b3) == 0 ==> b0 == 0 && b1 == 0 && b2 == 0 && b3 == 0
  {
  }

  lemma WordNonzero(word: seq<bv8>)
    requires |word| == 4 && !Zeros(word)
    ensures Run(0, word) != 0
  {
    hide Run, Shifts, Add, Word;
    FourBytes(0, word);
    NonzeroBytes(word[0], word[1], word[2], word[3]);
    AddCancels(BigEndian(word), 0);
    ShiftsInjective(BigEndian(word), 32);
  }

  /** A good section with anything changed inside four consecutive bytes is never good. */
  lemma BurstIsCaught(a: seq<bv8>, b: seq<bv8>, at: nat)
    requires Good(a) && |b| == |a| && at + 4 <= |a| && a != b
    requires forall i :: 0 <= i < |a| && !(at <= i < at + 4) ==> a[i] == b[i]
    ensures !Good(b)
  {
    hide Run, Good, Add, Xor;
    var e := Xor(a, b);
    RunLinear(INIT, INIT, a, b);
    GoodIsZeroRemainder(a);
    GoodIsZeroRemainder(b);
    var left, word, right := e[..at], e[at..at + 4], e[at + 4..];
    assert e == left + word + right;
    RunConcat(0, left + word, right);
    RunConcat(0, left, word);
    forall i | 0 <= i < |a| ensures e[i] == 0 <==> a[i] == b[i] { XorByte(a[i], b[i]); }
    RunZeros(0, left);
    RunZeros(Run(0, left + word), right);
    var i :| 0 <= i < |a| && a[i] != b[i];
    assert word[i - at] == e[i];
    WordNonzero(word);
    AddCancels(INIT, INIT);
    AddCancels(Run(INIT, a), Run(INIT, b));
  }
}
