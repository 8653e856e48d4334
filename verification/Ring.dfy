/** Commutative rings, their powers, and sums over sequences: the arithmetic of a Fourier transform. */
module Ring {

  datatype Ring<!T> = Ring(zero: T, one: T, add: (T, T) -> T, neg: T -> T, mul: (T, T) -> T)

  ghost predicate IsRing<T(!new)>(r: Ring<T>) {
    && (forall a, b :: r.add(a, b) == r.add(b, a))
    && (forall a, b, c :: r.add(r.add(a, b), c) == r.add(a, r.add(b, c)))
    && (forall a :: r.add(a, r.zero) == a)
    && (forall a :: r.add(a, r.neg(a)) == r.zero)
    && (forall a, b :: r.mul(a, b) == r.mul(b, a))
    && (forall a, b, c :: r.mul(r.mul(a, b), c) == r.mul(a, r.mul(b, c)))
    && (forall a :: r.mul(a, r.one) == a)
    && (forall a, b, c :: r.mul(a, r.add(b, c)) == r.add(r.mul(a, b), r.mul(a, c)))
  }

  lemma AddComm<T(!new)>(r: Ring<T>, a: T, b: T)
    requires IsRing(r)
    ensures r.add(a, b) == r.add(b, a)
  {
  }

  lemma AddAssoc<T(!new)>(r: Ring<T>, a: T, b: T, c: T)
    requires IsRing(r)
    ensures r.add(r.add(a, b), c) == r.add(a, r.add(b, c))
  {
  }

  lemma AddZero<T(!new)>(r: Ring<T>, a: T)
    requires IsRing(r)
    ensures r.add(a, r.zero) == a && r.add(r.zero, a) == a
  {
  }

  lemma AddNeg<T(!new)>(r: Ring<T>, a: T)
    requires IsRing(r)
    ensures r.add(a, r.neg(a)) == r.zero
  {
  }

  lemma MulComm<T(!new)>(r: Ring<T>, a: T, b: T)
    requires IsRing(r)
    ensures r.mul(a, b) == r.mul(b, a)
  {
  }

  lemma MulAssoc<T(!new)>(r: Ring<T>, a: T, b: T, c: T)
    requires IsRing(r)
    ensures r.mul(r.mul(a, b), c) == r.mul(a, r.mul(b, c))
  {
  }

  lemma MulOne<T(!new)>(r: Ring<T>, a: T)
    requires IsRing(r)
    ensures r.mul(a, r.one) == a && r.mul(r.one, a) == a
  {
  }

  lemma Distribute<T(!new)>(r: Ring<T>, a: T, b: T, c: T)
    requires IsRing(r)
    ensures r.mul(a, r.add(b, c)) == r.add(r.mul(a, b), r.mul(a, c))
  {
  }

  lemma CancelAdd<T(!new)>(r: Ring<T>, a: T, b: T, c: T)
    requires IsRing(r) && r.add(a, b) == r.add(a, c)
    ensures b == c
  {
    hide IsRing;
    forall x | x == b || x == c ensures r.add(r.neg(a), r.add(a, x)) == x {
      AddAssoc(r, r.neg(a), a, x);
      AddComm(r, r.neg(a), a);
      AddNeg(r, a);
      AddZero(r, x);
    }
  }

  lemma MulZero<T(!new)>(r: Ring<T>, a: T)
    requires IsRing(r)
    ensures r.mul(a, r.zero) == r.zero
  {
    hide IsRing;
    var p := r.mul(a, r.zero);
    AddZero(r, r.zero);
    Distribute(r, a, r.zero, r.zero);
    AddZero(r, p);
    CancelAdd(r, p, p, r.zero);
  }

  /** a * -b == -(a * b) */
  lemma MulNeg<T(!new)>(r: Ring<T>, a: T, b: T)
    requires IsRing(r)
    ensures r.mul(a, r.neg(b)) == r.neg(r.mul(a, b))
    ensures r.mul(r.neg(b), a) == r.neg(r.mul(a, b))
  {
    hide IsRing;
    Distribute(r, a, b, r.neg(b));
    AddNeg(r, b);
    MulZero(r, a);
    AddNeg(r, r.mul(a, b));
    CancelAdd(r, r.mul(a, b), r.mul(a, r.neg(b)), r.neg(r.mul(a, b)));
    MulComm(r, r.neg(b), a);
  }

  lemma NegNeg<T(!new)>(r: Ring<T>, a: T)
    requires IsRing(r)
    ensures r.neg(r.neg(a)) == a
  {
    hide IsRing;
    AddNeg(r, r.neg(a));
    AddNeg(r, a);
    AddComm(r, a, r.neg(a));
    CancelAdd(r, r.neg(a), r.neg(r.neg(a)), a);
  }

  function Pow<T>(r: Ring<T>, w: T, k: nat): T {
    if k == 0 then r.one else r.mul(Pow(r, w, k - 1), w)
  }

  lemma {:induction false} PowAdd<T(!new)>(r: Ring<T>, w: T, j: nat, k: nat)
    requires IsRing(r)
    ensures Pow(r, w, j + k) == r.mul(Pow(r, w, j), Pow(r, w, k))
  {
    hide IsRing;
    if k == 0 {
      MulOne(r, Pow(r, w, j));
    } else {
      PowAdd(r, w, j, k - 1);
      MulAssoc(r, Pow(r, w, j), Pow(r, w, k - 1), w);
    }
  }

  lemma {:induction false} PowMul<T(!new)>(r: Ring<T>, w: T, j: nat, k: nat)
    requires IsRing(r)
    ensures Pow(r, w, j * k) == Pow(r, Pow(r, w, k), j)
  {
    hide IsRing;
    if j > 0 {
      PowMul(r, w, j - 1, k);
      assert j * k == (j - 1) * k + k;
      PowAdd(r, w, (j - 1) * k, k);
    }
  }

  /** (w * w)^k == w^k * w^k */
  lemma {:induction false} PowSquare<T(!new)>(r: Ring<T>, w: T, k: nat)
    requires IsRing(r)
    ensures Pow(r, r.mul(w, w), k) == r.mul(Pow(r, w, k), Pow(r, w, k))
    ensures Pow(r, r.mul(w, w), k) == Pow(r, w, 2 * k)
  {
    hide IsRing;
    MulOne(r, r.one);
    MulOne(r, w);
    assert Pow(r, w, 1) == r.mul(Pow(r, w, 0), w) == w;
    assert Pow(r, w, 2) == r.mul(Pow(r, w, 1), w);
    PowMul(r, w, k, 2);
    PowAdd(r, w, k, k);
  }

  /** The polynomial with coefficients x, at z. */
  ghost function Eval<T>(r: Ring<T>, x: seq<T>, z: T): T {
    if x == [] then r.zero else r.add(x[0], r.mul(z, Eval(r, x[1..], z)))
  }

  /** The sum over j < n of x[j] * w^(j * k): term k of the discrete Fourier transform when n == |x|. */
  ghost function FourierSum<T>(r: Ring<T>, w: T, x: seq<T>, k: nat, n: nat): T
    requires n <= |x|
  {
    if n == 0 then r.zero
    else r.add(FourierSum(r, w, x, k, n - 1), r.mul(x[n - 1], Pow(r, w, (n - 1) * k)))
  }

  /** One more coefficient at the far end adds its own power. */
  lemma {:induction false} EvalAppend<T(!new)>(r: Ring<T>, x: seq<T>, c: T, z: T)
    requires IsRing(r)
    ensures Eval(r, x + [c], z) == r.add(Eval(r, x, z), r.mul(c, Pow(r, z, |x|)))
  {
    hide IsRing;
    if x == [] {
      assert x + [c] == [c] && [c][1..] == [];
      MulZero(r, z);
      AddZero(r, c);
      MulOne(r, c);
    } else {
      assert (x + [c])[1..] == x[1..] + [c];
      EvalAppend(r, x[1..], c, z);
      var rest, p := Eval(r, x[1..], z), Pow(r, z, |x| - 1);
      Distribute(r, z, rest, r.mul(c, p));
      AddAssoc(r, x[0], r.mul(z, rest), r.mul(z, r.mul(c, p)));
      MulComm(r, z, r.mul(c, p));
      MulAssoc(r, c, p, z);
    }
  }

  lemma {:induction false} EvalIsFourierSum<T(!new)>(r: Ring<T>, w: T, x: seq<T>, k: nat, n: nat)
    requires IsRing(r) && n <= |x|
    ensures Eval(r, x[..n], Pow(r, w, k)) == FourierSum(r, w, x, k, n)
  {
    hide IsRing;
    if n > 0 {
      assert x[..n] == x[..n - 1] + [x[n - 1]];
      EvalIsFourierSum(r, w, x, k, n - 1);
      EvalAppend(r, x[..n - 1], x[n - 1], Pow(r, w, k));
      PowMul(r, w, n - 1, k);
    }
  }
}
