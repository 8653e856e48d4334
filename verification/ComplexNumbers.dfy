/** The ring the sound prints transform in: complex numbers with exact real parts. */
module ComplexNumbers {
  import opened Ring
  import opened Fft

  datatype Complex = Complex(re: real, im: real) {
    function Plus(b: Complex): Complex { Complex(re + b.re, im + b.im) }
    function Negated(): Complex { Complex(-re, -im) }
    function Times(b: Complex): Complex { Complex(re * b.re - im * b.im, re * b.im + im * b.re) }
  }

  function ComplexRing(): Ring<Complex> {
    Ring(Complex(0.0, 0.0), Complex(1.0, 0.0), (a: Complex, b: Complex) => a.Plus(b), (a: Complex) => a.Negated(),
         (a: Complex, b: Complex) => a.Times(b))
  }

  lemma TimesAssoc(a: Complex, b: Complex, c: Complex)
    ensures a.Times(b).Times(c) == a.Times(b.Times(c))
  {
    var ab, bc := a.Times(b), b.Times(c);
    assert ab.re * c.re == a.re * b.re * c.re - a.im * b.im * c.re;
    assert ab.im * c.im == a.re * b.im * c.im + a.im * b.re * c.im;
    assert ab.re * c.im == a.re * b.re * c.im - a.im * b.im * c.im;
    assert ab.im * c.re == a.re * b.im * c.re + a.im * b.re * c.re;
    assert a.re * bc.re == a.re * (b.re * c.re) - a.re * (b.im * c.im);
    assert a.im * bc.im == a.im * (b.re * c.im) + a.im * (b.im * c.re);
    assert a.re * bc.im == a.re * (b.re * c.im) + a.re * (b.im * c.re);
    assert a.im * bc.re == a.im * (b.re * c.re) - a.im * (b.im * c.im);
  }

  lemma TimesPlus(a: Complex, b: Complex, c: Complex)
    ensures a.Times(b.Plus(c)) == a.Times(b).Plus(a.Times(c))
  {
  }

  lemma ComplexIsRing()
    ensures IsRing(ComplexRing())
  {
    var r := ComplexRing();
    forall a, b, c ensures r.mul(r.mul(a, b), c) == r.mul(a, r.mul(b, c)) { TimesAssoc(a, b, c); }
    forall a, b, c ensures r.mul(a, r.add(b, c)) == r.add(r.mul(a, b), r.mul(a, c)) { TimesPlus(a, b, c); }
  }

  /** The roots of sizes two and four, as exp(-2 pi i / size) gives them. */
  function SmallRoot(size: nat): Complex {
    if size == 2 then Complex(-1.0, 0.0) else Complex(0.0, -1.0)
  }

  lemma SmallRootsWork()
    ensures Roots(ComplexRing(), SmallRoot, 4)
  {
  }

  // ----- the roots of every size, from square roots of reals -----

  ghost predicate SquareRoots(sqrt: real -> real) {
    forall x :: x >= 0.0 ==> sqrt(x) >= 0.0 && sqrt(x) * sqrt(x) == x
  }

  /** The root with half the angle of w, for w below the real axis; the division is by none of its zeros. */
  function Halved(sqrt: real -> real, w: Complex): Complex {
    var h := sqrt((1.0 + w.re) / 2.0);
    Complex(h, if h == 0.0 then 0.0 else w.im / (2.0 * h))
  }

  /** exp(-2 pi i / size), by halving the angle of the root of half the size. */
  function ExactRoot(sqrt: real -> real, size: nat): Complex {
    if size <= 4 then SmallRoot(size) else Halved(sqrt, ExactRoot(sqrt, size / 2))
  }

  ghost predicate OnLowerRight(w: Complex) {
    w.re * w.re + w.im * w.im == 1.0 && w.re >= 0.0 && w.im < 0.0
  }

  lemma HalvedSquares(sqrt: real -> real, w: Complex)
    requires SquareRoots(sqrt) && OnLowerRight(w)
    ensures OnLowerRight(Halved(sqrt, w)) && Halved(sqrt, w).Times(Halved(sqrt, w)) == w
  {
    HalfAngle(w, sqrt((1.0 + w.re) / 2.0));
  }

  lemma {:induction false} RootSquares(sqrt: real -> real, size: nat)
    requires SquareRoots(sqrt) && PowerOfTwo(size) && size >= 4
    ensures OnLowerRight(ExactRoot(sqrt, size))
    ensures ExactRoot(sqrt, size).Times(ExactRoot(sqrt, size)) == ExactRoot(sqrt, size / 2)
  {
    hide OnLowerRight, SquareRoots, Halved, SmallRoot, Complex.Times;
    if size <= 4 {
      SquareOfFour();
      assert size == 4;
    } else {
      FourOrMore(size);
      RootSquares(sqrt, size / 2);
      HalvedSquares(sqrt, ExactRoot(sqrt, size / 2));
    }
  }

  lemma FourOrMore(size: nat)
    requires PowerOfTwo(size) && size > 4
    ensures PowerOfTwo(size / 2) && size / 2 >= 4
  {
    assert !PowerOfTwo(3);
  }

  lemma SquareOfFour()
    ensures OnLowerRight(SmallRoot(4)) && SmallRoot(4).Times(SmallRoot(4)) == SmallRoot(2)
  {
  }

  /** h is the cosine of half the angle of w. */
  lemma HalfAngle(w: Complex, h: real)
    requires w.re * w.re + w.im * w.im == 1.0 && w.im < 0.0 && w.re >= 0.0
    requires h >= 0.0 && h * h == (1.0 + w.re) / 2.0
    ensures h > 0.0 && w.im / (2.0 * h) < 0.0
    ensures var half := Complex(h, w.im / (2.0 * h));
            half.re * half.re + half.im * half.im == 1.0 && half.Times(half) == w
  {
    assert h > 0.0;
    var q := w.im / (2.0 * h);
    assert q * (2.0 * h) == w.im;
    assert q < 0.0;
    SquareOfProduct(q, h, w.im);
    assert (q * q) * (2.0 * (1.0 + w.re)) == (1.0 - w.re) * (1.0 + w.re);
    Cancel(2.0 * (q * q), 1.0 - w.re, 1.0 + w.re);
    assert h * q + q * h == w.im;
  }

  lemma SquareOfProduct(q: real, h: real, im: real)
    requires q * (2.0 * h) == im
    ensures (q * q) * (4.0 * (h * h)) == im * im
  {
    assert im * im == (q * (2.0 * h)) * (q * (2.0 * h));
  }

  lemma Cancel(a: real, b: real, c: real)
    requires a * c == b * c && c > 0.0
    ensures a == b
  {
    assert (a - b) * c == 0.0;
  }

  /** Given square roots of reals, there are roots for transforms of every power of two. */
  lemma ExactRootsWork(sqrt: real -> real, n: nat)
    requires SquareRoots(sqrt)
    ensures Roots(ComplexRing(), (size: nat) => ExactRoot(sqrt, size), n)
  {
    hide SquareRoots;
    forall s: nat | PowerOfTwo(s) && 2 <= s && 2 * s <= n
      ensures ExactRoot(sqrt, 2 * s).Times(ExactRoot(sqrt, 2 * s)) == ExactRoot(sqrt, s)
    {
      DoubledPower(s);
      RootSquares(sqrt, 2 * s);
    }
  }
}
