/** The in-place fast Fourier transform of the sound prints, over any commutative ring. */
module Fft {
  import opened Ring

  ghost predicate PowerOfTwo(n: nat) {
    n == 1 || (n > 1 && n % 2 == 0 && PowerOfTwo(n / 2))
  }

  /** root(s) is the twiddle step of size s: root(2) is -1 and each later root squares to the one before. */
  ghost predicate Roots<T>(r: Ring<T>, root: nat -> T, n: nat) {
    && (n >= 2 ==> root(2) == r.neg(r.one))
    && forall s: nat :: PowerOfTwo(s) && 2 <= s && 2 * s <= n ==> r.mul(root(2 * s), root(2 * s)) == root(s)
  }

  // ----- bit reversal -----

  /** i with its bits in reverse, as an index below n = 2^m. */
  ghost function Rev(n: nat, i: nat): (j: nat)
    requires PowerOfTwo(n) && i < n
    ensures j < n
  {
    if n == 1 then 0
    else if i < n / 2 then 2 * Rev(n / 2, i)
    else 2 * Rev(n / 2, i - n / 2) + 1
  }

  /** Reversal read from the low bit: it becomes the top one. */
  lemma {:induction false} RevLow(n: nat, q: nat)
    requires PowerOfTwo(n) && n > 1 && q < n / 2
    ensures Rev(n, 2 * q) == Rev(n / 2, q)
    ensures Rev(n, 2 * q + 1) == n / 2 + Rev(n / 2, q)
  {
    var h := n / 2;
    if h > 1 {
      if q < h / 2 {
        RevLow(h, q);
      } else {
        RevLow(h, q - h / 2);
        assert 2 * q - h == 2 * (q - h / 2);
      }
    }
  }

  lemma {:induction false} RevRev(n: nat, i: nat)
    requires PowerOfTwo(n) && i < n
    ensures Rev(n, Rev(n, i)) == i
  {
    if n > 1 {
      var q := if i < n / 2 then i else i - n / 2;
      RevLow(n, Rev(n / 2, q));
      RevRev(n / 2, q);
    }
  }

  ghost function Evens<T>(x: seq<T>): (r: seq<T>)
    ensures |r| == (|x| + 1) / 2 && forall j :: 0 <= j < |r| ==> r[j] == x[2 * j]
  {
    seq((|x| + 1) / 2, j requires 0 <= j < (|x| + 1) / 2 => x[2 * j])
  }

  ghost function Odds<T>(x: seq<T>): (r: seq<T>)
    ensures |r| == |x| / 2 && forall j :: 0 <= j < |r| ==> r[j] == x[2 * j + 1]
  {
    seq(|x| / 2, j requires 0 <= j < |x| / 2 => x[2 * j + 1])
  }

  ghost function Shuffled<T>(x: seq<T>): (y: seq<T>)
    requires PowerOfTwo(|x|)
    ensures |y| == |x| && forall i :: 0 <= i < |x| ==> y[i] == x[Rev(|x|, i)]
  {
    seq(|x|, i requires 0 <= i < |x| => x[Rev(|x|, i)])
  }

  lemma ShuffledSplits<T>(x: seq<T>)
    requires PowerOfTwo(|x|) && |x| > 1
    ensures |Evens(x)| == |Odds(x)| == |x| / 2
    ensures Shuffled(x) == Shuffled(Evens(x)) + Shuffled(Odds(x))
  {
    hide Evens, Odds, Shuffled, PowerOfTwo, Rev;
    HalfIsPower(|x|);
    assert |Evens(x)| == |Odds(x)| == |x| / 2;
    var y, a, b, h := Shuffled(x), Shuffled(Evens(x)), Shuffled(Odds(x)), |x| / 2;
    forall i | 0 <= i < h ensures y[i] == a[i] {
      ShuffledHalf(x, i);
    }
    forall i | 0 <= i < h ensures y[h + i] == b[i] {
      ShuffledHalf(x, h + i);
    }
    Halves(y, a, b, h);
  }

  lemma Halves<T>(y: seq<T>, a: seq<T>, b: seq<T>, h: nat)
    requires |a| == |b| == h && |y| == 2 * h
    requires forall i :: 0 <= i < h ==> y[i] == a[i]
    requires forall i :: 0 <= i < h ==> y[h + i] == b[i]
    ensures y == a + b
  {
    assert y[..h] == a && y[h..] == b;
  }

  lemma ShuffledHalf<T>(x: seq<T>, i: nat)
    requires PowerOfTwo(|x|) && |x| > 1 && PowerOfTwo(|x| / 2) && |x| == 2 * (|x| / 2) && i < |x|
    ensures |Evens(x)| == |Odds(x)| == |x| / 2
    ensures Shuffled(x)[i] == if i < |x| / 2 then Shuffled(Evens(x))[i] else Shuffled(Odds(x))[i - |x| / 2]
  {
    var n, h := |x|, |x| / 2;
    hide Shuffled, Evens, Odds;
    if i < h {
      assert Rev(n, i) == 2 * Rev(h, i);
      assert Shuffled(Evens(x))[i] == Evens(x)[Rev(h, i)];
    } else {
      assert Rev(n, i) == 2 * Rev(h, i - h) + 1;
      assert Shuffled(Odds(x))[i - h] == Odds(x)[Rev(h, i - h)];
    }
  }

  /** One step of the bit-reversed counter: clear set bits from the top, then set the first clear one. */
  method NextReversed(n: nat, j0: nat, ghost i: nat) returns (j: nat)
    requires PowerOfTwo(n) && 1 <= i < n && j0 == Rev(n, i - 1)
    ensures j == Rev(n, i)
  {
    hide PowerOfTwo, Rev;
    j := j0;
    var bit := n / 2;
    ghost var q := i - 1;
    RevStep(n, q);
    while (j / bit) % 2 == 1
      invariant bit >= 1 && PowerOfTwo(2 * bit) && q + 1 < 2 * bit
      invariant 0 <= q && j == Rev(2 * bit, q) && Rev(2 * bit, q + 1) == Rev(n, i)
      decreases bit
    {
      RevStep(2 * bit, q);
      j := j - bit;
      bit := bit / 2;
      q := q / 2;
    }
    RevStep(2 * bit, q);
    j := j + bit;
  }

  lemma TopBit(h: nat, v: nat)
    requires 0 < h && v < 2 * h
    ensures v / h == if v < h then 0 else 1
  {
    if v >= h {
      assert v == h + (v - h);
    }
  }

  lemma HalfIsPower(n: nat)
    requires PowerOfTwo(n) && n > 1
    ensures n / 2 >= 1 && 2 * (n / 2) == n && PowerOfTwo(n / 2)
    ensures n == 2 || (n / 2) % 2 == 0
  {
  }

  /** The counter at q in terms of its top bit. */
  lemma RevStep(n: nat, q: nat)
    requires PowerOfTwo(n) && q + 1 < n
    ensures n / 2 >= 1 && 2 * (n / 2) == n && PowerOfTwo(n / 2)
    ensures (Rev(n, q) / (n / 2)) % 2 == 1 <==> q % 2 == 1
    ensures q % 2 == 1 ==>
              && n / 2 >= 2 && q / 2 + 1 < n / 2 && 2 * (n / 2 / 2) == n / 2
              && Rev(n, q) - n / 2 == Rev(n / 2, q / 2)
              && Rev(n, q + 1) == Rev(n / 2, q / 2 + 1)
    ensures q % 2 == 0 ==> Rev(n, q + 1) == Rev(n, q) + n / 2
  {
    HalfIsPower(n);
    hide PowerOfTwo;
    RevLow(n, q / 2);
    TopBit(n / 2, Rev(n, q));
    if q % 2 == 1 {
      assert q == 2 * (q / 2) + 1 && q + 1 == 2 * (q / 2 + 1);
      RevLow(n, q / 2 + 1);
    }
  }

  /** The input with the pairs whose smaller index is below i swapped. */
  ghost function PartlyShuffled<T>(x: seq<T>, i: nat): (y: seq<T>)
    requires PowerOfTwo(|x|)
    ensures |y| == |x|
    ensures forall p :: 0 <= p < |x| ==> y[p] == if p < i || Rev(|x|, p) < i then x[Rev(|x|, p)] else x[p]
  {
    seq(|x|, p requires 0 <= p < |x| => if p < i || Rev(|x|, p) < i then x[Rev(|x|, p)] else x[p])
  }

  lemma ShuffleStep<T>(x: seq<T>, i: nat)
    requires PowerOfTwo(|x|) && i < |x|
    ensures var j, y := Rev(|x|, i), PartlyShuffled(x, i);
            PartlyShuffled(x, i + 1) == if i < j then y[i := y[j]][j := y[i]] else y
  {
    hide PowerOfTwo, Rev;
    var n, j, y := |x|, Rev(|x|, i), PartlyShuffled(x, i);
    var z := if i < j then y[i := y[j]][j := y[i]] else y;
    RevRev(n, i);
    forall p | 0 <= p < n ensures PartlyShuffled(x, i + 1)[p] == z[p] {
      RevRev(n, p);
    }
  }

  /** Swaps x into bit-reversed order. */
  method Shuffle<T>(x: array<T>)
    requires PowerOfTwo(x.Length)
    modifies x
    ensures x[..] == Shuffled(old(x[..]))
  {
    hide PowerOfTwo, Rev;
    var n := x.Length;
    ghost var x0 := x[..];
    var j := 0;
    var i := 1;
    RevZero(n);
    assert x[..] == PartlyShuffled(x0, 1);
    while i < n
      invariant 1 <= i <= n
      invariant j == Rev(n, i - 1)
      invariant x[..] == PartlyShuffled(x0, i)
    {
      ghost var y := x[..];
      j := NextReversed(n, j, i);
      ShuffleStep(x0, i);
      if i < j {
        x[i], x[j] := x[j], x[i];
        assert x[..] == y[i := y[j]][j := y[i]];
      }
      i := i + 1;
    }
  }

  lemma {:induction false} RevZero(n: nat)
    requires PowerOfTwo(n)
    ensures Rev(n, 0) == 0
    ensures forall p :: 0 <= p < n && Rev(n, p) == 0 ==> p == 0
  {
    if n > 1 { RevZero(n / 2); }
    forall p | 0 <= p < n && Rev(n, p) == 0 ensures p == 0 { RevRev(n, p); }
  }

  // ----- butterflies -----

  /** The transform of twice the size from the transforms of the two halves. */
  ghost function Combine<T>(r: Ring<T>, step: T, a: seq<T>, b: seq<T>): (y: seq<T>)
    requires |a| == |b|
    ensures |y| == 2 * |a|
    ensures forall k :: 0 <= k < |a| ==>
              && y[k] == r.add(a[k], r.mul(b[k], Pow(r, step, k)))
              && y[|a| + k] == r.add(a[k], r.neg(r.mul(b[k], Pow(r, step, k))))
  {
    seq(|a|, k requires 0 <= k < |a| => r.add(a[k], r.mul(b[k], Pow(r, step, k)))) +
    seq(|a|, k requires 0 <= k < |a| => r.add(a[k], r.neg(r.mul(b[k], Pow(r, step, k)))))
  }

  /** All the butterflies of a bit-reversed block. */
  ghost function Butterflies<T>(r: Ring<T>, root: nat -> T, y: seq<T>): (z: seq<T>)
    requires PowerOfTwo(|y|)
    ensures |z| == |y|
  {
    if |y| == 1 then y
    else
      var h := |y| / 2;
      Combine(r, root(|y|), Butterflies(r, root, y[..h]), Butterflies(r, root, y[h..]))
  }

  /** len is a whole number of blocks of size s. */
  ghost predicate Chunked(len: nat, s: nat) {
    len == 0 || (0 < s <= len && Chunked(len - s, s))
  }

  /** y with every block of size s transformed. */
  ghost function Blocks<T>(r: Ring<T>, root: nat -> T, y: seq<T>, s: nat): (z: seq<T>)
    requires PowerOfTwo(s) && Chunked(|y|, s)
    ensures |z| == |y|
  {
    if y == [] then [] else Butterflies(r, root, y[..s]) + Blocks(r, root, y[s..], s)
  }

  lemma {:induction false} ChunkedSum(a: nat, b: nat, s: nat)
    requires Chunked(a, s) && Chunked(b, s)
    ensures Chunked(a + b, s)
    decreases a
  {
    if a > 0 { ChunkedSum(a - s, b, s); }
  }

  lemma {:induction false} PowersChunk(n: nat, s: nat)
    requires PowerOfTwo(n) && PowerOfTwo(s) && s <= n
    ensures Chunked(n, s)
    ensures s == n || 2 * s <= n
  {
    if s < n {
      PowersBelow(n, s);
      PowersChunk(n / 2, s);
      ChunkedSum(n / 2, n / 2, s);
    } else {
      assert Chunked(0, s);
    }
  }

  lemma {:induction false} PowersBelow(n: nat, s: nat)
    requires PowerOfTwo(n) && PowerOfTwo(s) && s < n
    ensures s <= n / 2
  {
    if s > 1 { PowersBelow(n / 2, s / 2); }
  }

  lemma SmallPowers(n: nat)
    requires PowerOfTwo(n)
    ensures n >= 1 && PowerOfTwo(1) && PowerOfTwo(2)
  {
  }

  lemma DoubledPower(s: nat)
    requires PowerOfTwo(s)
    ensures PowerOfTwo(2 * s)
  {
    assert (2 * s) / 2 == s;
  }

  lemma {:induction false} BlocksOfOne<T>(r: Ring<T>, root: nat -> T, y: seq<T>)
    requires Chunked(|y|, 1)
    ensures Blocks(r, root, y, 1) == y
  {
    if y != [] {
      BlocksOfOne(r, root, y[1..]);
      assert y == y[..1] + y[1..];
    }
  }

  lemma BlocksOfAll<T>(r: Ring<T>, root: nat -> T, y: seq<T>)
    requires PowerOfTwo(|y|) && Chunked(|y|, |y|)
    ensures Blocks(r, root, y, |y|) == Butterflies(r, root, y)
  {
    assert y[..|y|] == y && y[|y|..] == [];
  }

  lemma FirstBlock<T>(r: Ring<T>, root: nat -> T, y: seq<T>, s: nat)
    requires PowerOfTwo(s) && Chunked(|y|, s) && y != []
    ensures |y| >= s && Chunked(|y| - s, s)
    ensures Blocks(r, root, y, s) == Butterflies(r, root, y[..s]) + Blocks(r, root, y[s..], s)
  {
  }

  /** Two neighbouring blocks of size h join into one of size 2h. */
  lemma JoinBlocks<T>(r: Ring<T>, root: nat -> T, y: seq<T>, h: nat)
    requires PowerOfTwo(h) && PowerOfTwo(2 * h) && Chunked(|y|, h) && Chunked(|y|, 2 * h) && y != []
    ensures |y| >= 2 * h && Chunked(|y| - 2 * h, h) && Chunked(|y| - 2 * h, 2 * h)
    ensures var a, b := Butterflies(r, root, y[..h]), Butterflies(r, root, y[h..2 * h]);
            && Blocks(r, root, y, h) == a + b + Blocks(r, root, y[2 * h..], h)
            && Blocks(r, root, y, 2 * h) == Combine(r, root(2 * h), a, b) + Blocks(r, root, y[2 * h..], 2 * h)
  {
    hide Blocks, Butterflies, Chunked, PowerOfTwo, Combine;
    FirstBlock(r, root, y, h);
    FirstBlock(r, root, y, 2 * h);
    ghost var rest := y[h..];
    NotEmpty(|y|, h);
    FirstBlock(r, root, rest, h);
    assert rest[..h] == y[h..2 * h] && rest[h..] == y[2 * h..];
    ghost var pair := y[..2 * h];
    OuterButterfly(r, root, pair);
    assert pair[..h] == y[..h] && pair[h..] == y[h..2 * h];
  }

  lemma NotEmpty(len: nat, h: nat)
    requires Chunked(len, 2 * h) && len > 0 && h > 0
    ensures len >= 2 * h
  {
  }

  lemma OuterButterfly<T>(r: Ring<T>, root: nat -> T, y: seq<T>)
    requires PowerOfTwo(|y|) && |y| > 1
    ensures PowerOfTwo(|y| / 2) && 2 * (|y| / 2) == |y|
    ensures Butterflies(r, root, y) ==
            Combine(r, root(|y|), Butterflies(r, root, y[..|y| / 2]), Butterflies(r, root, y[|y| / 2..]))
  {
  }

  ghost function BlockCombined<T>(r: Ring<T>, x: seq<T>, start: nat, half: nat, step: T): (y: seq<T>)
    requires start + 2 * half <= |x|
    ensures |y| == |x|
    ensures forall p :: 0 <= p < start || start + 2 * half <= p < |x| ==> y[p] == x[p]
  {
    x[..start] + Combine(r, step, x[start..start + half], x[start + half..start + 2 * half]) + x[start + 2 * half..]
  }

  lemma CombinedAt<T>(r: Ring<T>, x: seq<T>, start: nat, half: nat, step: T, k: nat)
    requires start + 2 * half <= |x| && k < half
    ensures var y, b := BlockCombined(r, x, start, half, step), r.mul(x[start + half + k], Pow(r, step, k));
            y[start + k] == r.add(x[start + k], b) && y[start + half + k] == r.add(x[start + k], r.neg(b))
  {
    hide Combine, Pow;
    var a, b := x[start..start + half], x[start + half..start + 2 * half];
    var y := Combine(r, step, a, b);
    Middle(x[..start], y, x[start + 2 * half..], k);
    Middle(x[..start], y, x[start + 2 * half..], half + k);
    assert a[k] == x[start + k] && b[k] == x[start + half + k];
  }

  lemma Middle<T>(left: seq<T>, y: seq<T>, right: seq<T>, k: nat)
    requires k < |y|
    ensures (left + y + right)[|left| + k] == y[k]
  {
  }

  /** The butterflies of one block, in place. */
  method Butterfly<T>(r: Ring<T>, x: array<T>, start: nat, half: nat, step: T)
    requires start + 2 * half <= x.Length
    modifies x
    ensures x[..] == BlockCombined(r, old(x[..]), start, half, step)
  {
    hide BlockCombined;
    ghost var x0 := x[..];
    ghost var y := BlockCombined(r, x0, start, half, step);
    var w := r.one;
    for k := 0 to half
      invariant w == Pow(r, step, k)
      invariant forall p :: start + k <= p < start + half || start + half + k <= p < start + 2 * half ==> x[p] == x0[p]
      invariant forall p :: 0 <= p < start + k || start + half <= p < start + half + k || start + 2 * half <= p < x.Length ==>
                  x[p] == y[p]
    {
      CombinedAt(r, x0, start, half, step, k);
      var a, b := x[start + k], r.mul(x[start + k + half], w);
      x[start + k], x[start + k + half] := r.add(a, b), r.add(a, r.neg(b));
      w := r.mul(w, step);
    }
    assert x[..] == y;
  }

  /** A stage that has done the blocks before start: done holds them, rest is the halves of those to come. */
  ghost predicate HalfDone<T>(r: Ring<T>, root: nat -> T, x: seq<T>, y: seq<T>, done: seq<T>, rest: seq<T>, h: nat)
    requires PowerOfTwo(h) && PowerOfTwo(2 * h) && Chunked(|y|, 2 * h)
  {
    && Chunked(|rest|, 2 * h) && Chunked(|rest|, h)
    && |done| + |rest| == |y|
    && x == done + Blocks(r, root, rest, h)
    && done + Blocks(r, root, rest, 2 * h) == Blocks(r, root, y, 2 * h)
  }

  /** One stage: every block of the given size from its two halves. */
  method Stage<T>(r: Ring<T>, root: nat -> T, x: array<T>, size: nat, ghost y: seq<T>)
    requires |y| == x.Length && size == 2 * (size / 2) && size >= 2 && PowerOfTwo(size) && PowerOfTwo(size / 2)
    requires Chunked(|y|, size) && Chunked(|y|, size / 2)
    requires x[..] == Blocks(r, root, y, size / 2)
    modifies x
    ensures x[..] == Blocks(r, root, y, size)
  {
    hide Blocks, Butterflies, Chunked, PowerOfTwo, BlockCombined;
    var n, half := x.Length, size / 2;
    var step := root(size);
    var start := 0;
    ghost var done: seq<T>, rest := [], y;
    assert HalfDone(r, root, x[..], y, done, rest, half);
    while start < n
      invariant 0 <= start <= n && |done| == start && |rest| == n - start
      invariant HalfDone(r, root, x[..], y, done, rest, half)
      decreases n - start
    {
      hide HalfDone;
      ghost var xs := x[..];
      ghost var next := BlockStep(r, root, xs, y, done, rest, half);
      Butterfly(r, x, start, half, step);
      done, rest := done + next, rest[size..];
      start := start + size;
    }
    StageDone(r, root, x[..], y, done, rest, half);
  }

  lemma StageDone<T>(r: Ring<T>, root: nat -> T, x: seq<T>, y: seq<T>, done: seq<T>, rest: seq<T>, h: nat)
    requires PowerOfTwo(h) && PowerOfTwo(2 * h) && Chunked(|y|, 2 * h)
    requires HalfDone(r, root, x, y, done, rest, h) && rest == []
    ensures x == Blocks(r, root, y, 2 * h)
  {
  }

  /** One block's butterflies take a half-done stage one block further. */
  lemma BlockStep<T>(r: Ring<T>, root: nat -> T, x: seq<T>, y: seq<T>, done: seq<T>, rest: seq<T>, h: nat)
    returns (next: seq<T>)
    requires PowerOfTwo(h) && PowerOfTwo(2 * h) && Chunked(|y|, 2 * h) && |x| == |y|
    requires HalfDone(r, root, x, y, done, rest, h) && rest != []
    ensures |rest| >= 2 * h && |next| == 2 * h && |x| >= |done| + 2 * h
    ensures HalfDone(r, root, BlockCombined(r, x, |done|, h, root(2 * h)), y, done + next, rest[2 * h..], h)
  {
    hide Blocks, Butterflies, Chunked, PowerOfTwo, Combine;
    StageStep(r, root, x, done, rest, h);
    next := Combine(r, root(2 * h), x[|done|..|done| + h], x[|done| + h..|done| + 2 * h]);
  }

  /** What one block's butterflies do to a half-finished stage. */
  lemma StageStep<T>(r: Ring<T>, root: nat -> T, x: seq<T>, done: seq<T>, rest: seq<T>, h: nat)
    requires PowerOfTwo(h) && PowerOfTwo(2 * h) && Chunked(|rest|, h) && Chunked(|rest|, 2 * h) && rest != []
    requires x == done + Blocks(r, root, rest, h)
    ensures |rest| >= 2 * h && Chunked(|rest| - 2 * h, h) && Chunked(|rest| - 2 * h, 2 * h)
    ensures |x| >= |done| + 2 * h && x[..|done|] == done
    ensures var next := Combine(r, root(2 * h), x[|done|..|done| + h], x[|done| + h..|done| + 2 * h]);
            && x[|done| + 2 * h..] == Blocks(r, root, rest[2 * h..], h)
            && done + next + Blocks(r, root, rest[2 * h..], 2 * h) == done + Blocks(r, root, rest, 2 * h)
  {
    hide Blocks, Butterflies, Chunked, PowerOfTwo, Combine;
    JoinBlocks(r, root, rest, h);
    var a, b := Butterflies(r, root, rest[..h]), Butterflies(r, root, rest[h..2 * h]);
    var tail := Blocks(r, root, rest[2 * h..], h);
    Pieces(x, done, a, b, tail);
    var next := Combine(r, root(2 * h), a, b);
    assert done + next + Blocks(r, root, rest[2 * h..], 2 * h) == done + (next + Blocks(r, root, rest[2 * h..], 2 * h));
  }

  lemma Pieces<T>(x: seq<T>, done: seq<T>, a: seq<T>, b: seq<T>, tail: seq<T>)
    requires |a| == |b| && x == done + (a + b + tail)
    ensures x[..|done|] == done
    ensures x[|done|..|done| + |a|] == a && x[|done| + |a|..|done| + 2 * |a|] == b
    ensures x[|done| + 2 * |a|..] == tail
  {
  }

  /** -1 half way round. */
  lemma {:induction false} HalfTurn<T(!new)>(r: Ring<T>, root: nat -> T, n: nat)
    requires IsRing(r) && Roots(r, root, n) && PowerOfTwo(n) && n >= 2
    ensures Pow(r, root(n), n / 2) == r.neg(r.one)
  {
    hide IsRing;
    if n == 2 {
      MulOne(r, root(2));
      assert Pow(r, root(2), 1) == r.mul(Pow(r, root(2), 0), root(2));
    } else {
      var h := n / 2;
      assert PowerOfTwo(h) && 2 * h == n && h >= 2;
      HalfTurn(r, root, h);
      PowSquare(r, root(n), h / 2);
    }
  }

  /** A polynomial in z from its even and odd coefficients, as polynomials in z^2. */
  lemma {:induction false} EvalSplit<T(!new)>(r: Ring<T>, x: seq<T>, z: T)
    requires IsRing(r)
    ensures var zz := r.mul(z, z);
            Eval(r, x, z) == r.add(Eval(r, Evens(x), zz), r.mul(z, Eval(r, Odds(x), zz)))
    decreases |x|
  {
    hide IsRing;
    var zz := r.mul(z, z);
    if x == [] {
      MulZero(r, z);
      AddZero(r, r.zero);
    } else {
      var tail := x[1..];
      EvalSplit(r, tail, z);
      assert Evens(x) == [x[0]] + Odds(tail);
      assert Odds(x) == Evens(tail);
      var e, o := Eval(r, Evens(tail), zz), Eval(r, Odds(tail), zz);
      assert Eval(r, Evens(x), zz) == r.add(x[0], r.mul(zz, o)) by {
        assert Evens(x)[1..] == Odds(tail);
      }
      Distribute(r, z, e, r.mul(z, o));
      MulAssoc(r, z, z, o);
      AddComm(r, r.mul(z, e), r.mul(zz, o));
      AddAssoc(r, x[0], r.mul(zz, o), r.mul(z, e));
    }
  }

  /** The butterflies of the shuffled input evaluate it at every power of the root. */
  lemma {:induction false} ButterfliesEval<T(!new)>(r: Ring<T>, root: nat -> T, x: seq<T>, k: nat)
    requires IsRing(r) && PowerOfTwo(|x|) && Roots(r, root, |x|) && k < |x|
    ensures Butterflies(r, root, Shuffled(x))[k] == Eval(r, x, Pow(r, root(|x|), k))
    decreases |x|, 2
  {
    hide IsRing, Evens, Odds, Eval;
    var n := |x|;
    if n == 1 {
      SinglePoint(r, x[0], Pow(r, root(1), k));
      assert x == [x[0]] && Shuffled(x) == x;
    } else {
      ShuffledSplits(x);
      var y, h := Shuffled(x), n / 2;
      hide Shuffled;
      assert y[..h] == Shuffled(Evens(x)) && y[h..] == Shuffled(Odds(x));
      OuterButterfly(r, root, y);
      hide Butterflies, PowerOfTwo, Rev, Roots, Pow, Combine;
      var w := root(n);
      var a, b := Butterflies(r, root, Shuffled(Evens(x))), Butterflies(r, root, Shuffled(Odds(x)));
      var z := Combine(r, w, a, b);
      if k < h {
        FirstHalf(r, root, x, k);
        assert z[k] == r.add(a[k], r.mul(b[k], Pow(r, w, k)));
      } else {
        var i := k - h;
        FirstHalf(r, root, x, i);
        assert z[h + i] == r.add(a[i], r.neg(r.mul(b[i], Pow(r, w, i))));
      }
    }
  }

  lemma SinglePoint<T(!new)>(r: Ring<T>, c: T, z: T)
    requires IsRing(r)
    ensures Eval(r, [c], z) == c
  {
    hide IsRing;
    MulZero(r, z);
    AddZero(r, c);
    assert [c][1..] == [];
  }

  /** Both outputs of butterfly i. */
  lemma FirstHalf<T(!new)>(r: Ring<T>, root: nat -> T, x: seq<T>, i: nat)
    requires IsRing(r) && PowerOfTwo(|x|) && Roots(r, root, |x|) && |x| > 1 && i < |x| / 2
    ensures |Evens(x)| == |Odds(x)| == |x| / 2
    ensures var h, w := |x| / 2, root(|x|);
            var a, b := Butterflies(r, root, Shuffled(Evens(x))), Butterflies(r, root, Shuffled(Odds(x)));
            && r.add(a[i], r.mul(b[i], Pow(r, w, i))) == Eval(r, x, Pow(r, w, i))
            && r.add(a[i], r.neg(r.mul(b[i], Pow(r, w, i)))) == Eval(r, x, Pow(r, w, i + h))
    decreases |x|, 1
  {
    hide IsRing, Butterflies, Eval, Shuffled;
    HalvesEval(r, root, x, i);
    var h, w := |x| / 2, root(|x|);
    var p := Pow(r, w, i);
    var odd := Butterflies(r, root, Shuffled(Odds(x)))[i];
    EvalSplit(r, x, p);
    MulComm(r, p, odd);
    PowAdd(r, w, i, h);
    HalfTurn(r, root, |x|);
    NegatedPoint(r, x, p, odd);
  }

  /** -z has the same square as z, and the odd half changes sign. */
  lemma NegatedPoint<T(!new)>(r: Ring<T>, x: seq<T>, z: T, odd: T)
    requires IsRing(r) && odd == Eval(r, Odds(x), r.mul(z, z))
    ensures Eval(r, x, r.mul(z, r.neg(r.one))) == r.add(Eval(r, Evens(x), r.mul(z, z)), r.neg(r.mul(odd, z)))
  {
    hide IsRing, Eval;
    var m := r.mul(z, r.neg(r.one));
    MulNeg(r, z, r.one);
    MulOne(r, z);
    assert m == r.neg(z);
    MulNeg(r, m, z);
    MulNeg(r, z, z);
    NegNeg(r, r.mul(z, z));
    assert r.mul(m, m) == r.mul(z, z);
    EvalSplit(r, x, m);
    MulNeg(r, odd, z);
  }

  lemma HalvesEval<T(!new)>(r: Ring<T>, root: nat -> T, x: seq<T>, i: nat)
    requires IsRing(r) && PowerOfTwo(|x|) && Roots(r, root, |x|) && |x| > 1 && i < |x| / 2
    ensures |Evens(x)| == |Odds(x)| == |x| / 2
    ensures var z := Pow(r, root(|x|), i);
            && Butterflies(r, root, Shuffled(Evens(x)))[i] == Eval(r, Evens(x), r.mul(z, z))
            && Butterflies(r, root, Shuffled(Odds(x)))[i] == Eval(r, Odds(x), r.mul(z, z))
    decreases |x|, 0
  {
    hide IsRing;
    var h := |x| / 2;
    assert 2 * h == |x|;
    ButterfliesEval(r, root, Evens(x), i);
    ButterfliesEval(r, root, Odds(x), i);
    var w := root(|x|);
    if h == 1 {
      assert Pow(r, w, 0) == r.one;
      MulOne(r, r.one);
    } else {
      PowSquare(r, w, i);
    }
  }

  /**
    Transforms x in place: x[k] becomes the sum over j of x[j] * w^(j * k),
    where w is the root of x's own size.
  */
  method Transform<T(!new)>(r: Ring<T>, root: nat -> T, x: array<T>)
    requires PowerOfTwo(x.Length)
    modifies x
    ensures x[..] == Butterflies(r, root, Shuffled(old(x[..])))
    ensures IsRing(r) && Roots(r, root, x.Length) ==>
              forall k: nat :: k < x.Length ==>
                x[k] == FourierSum(r, root(x.Length), old(x[..]), k, x.Length)
  {
    hide Blocks, Butterflies, Chunked, PowerOfTwo, Combine, Shuffled, Roots, IsRing, FourierSum, Eval;
    var n := x.Length;
    ghost var x0 := x[..];
    Shuffle(x);
    ghost var y := x[..];
    var size := 2;
    SmallPowers(n);
    PowersChunk(n, 1);
    BlocksOfOne(r, root, y);
    while size <= n
      invariant size == 2 * (size / 2) && size / 2 <= n && PowerOfTwo(size) && PowerOfTwo(size / 2)
      invariant Chunked(n, size / 2)
      invariant x[..] == Blocks(r, root, y, size / 2)
      decreases 2 * n - size
    {
      PowersChunk(n, size);
      Stage(r, root, x, size, y);
      DoubledPower(size);
      size := 2 * size;
    }
    PowersChunk(n, size / 2);
    BlocksOfAll(r, root, y);
    if IsRing(r) && Roots(r, root, n) {
      forall k: nat | k < n ensures x[k] == FourierSum(r, root(n), x0, k, n) {
        ButterfliesEval(r, root, x0, k);
        EvalIsFourierSum(r, root(n), x0, k, n);
        assert x0[..n] == x0;
      }
    }
  }
}
