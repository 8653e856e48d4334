/** Which of the stretches of sound two recordings share are kept: the longest of any that cover the same hops. */
module SoundRuns {
  import opened Sorting

  /** n hops that play at a in one recording and at b in the other. */
  datatype Run = Run(a: int, b: int, n: nat)

  predicate Clash(r: Run, k: Run) { r.a < k.a + k.n && k.a < r.a + r.n }

  predicate Covers(r: Run, hop: int) { r.a <= hop < r.a + r.n }

  lemma ClashSharesHop(r: Run, k: Run)
    requires r.n > 0 && k.n > 0
    ensures Clash(r, k) <==> exists hop :: Covers(r, hop) && Covers(k, hop)
  {
    var hop := if r.a < k.a then k.a else r.a;
    assert Clash(r, k) ==> Covers(r, hop) && Covers(k, hop);
  }

  predicate StartLe(r: Run, k: Run) { r.a <= k.a }

  ghost predicate Shortening(x: seq<Run>) {
    forall i, j :: 0 <= i < j < |x| ==> x[i].n >= x[j].n
  }

  /** One of the orders the sort by length may leave. */
  ghost predicate LongFirst(runs: seq<Run>, x: seq<Run>) {
    multiset(x) == multiset(runs) && Shortening(x)
  }

  predicate Free(r: Run, out: seq<Run>) { forall k :: k in out ==> !Clash(r, k) }

  ghost predicate Apart(out: seq<Run>) {
    forall i, j :: 0 <= i < j < |out| ==> !Clash(out[i], out[j])
  }

  /** What the pass keeps of the runs before it in the order. */
  function Keep(x: seq<Run>): (out: seq<Run>)
    ensures Apart(out)
    ensures forall k :: k in out ==> k in x
  {
    if x == [] then []
    else
      var out, r := Keep(x[..|x| - 1]), x[|x| - 1];
      assert Free(r, out) ==> forall i :: 0 <= i < |out| ==> out[i] in out && !Clash(out[i], r);
      if Free(r, out) then out + [r] else out
  }

  lemma {:induction false} KeptAreRuns(x: seq<Run>)
    ensures multiset(Keep(x)) <= multiset(x)
  {
    if x != [] {
      KeptAreRuns(x[..|x| - 1]);
      assert x == x[..|x| - 1] + [x[|x| - 1]];
    }
  }

  lemma {:induction false} KeepMore(x: seq<Run>, more: seq<Run>)
    ensures |Keep(x)| <= |Keep(x + more)| && Keep(x + more)[..|Keep(x)|] == Keep(x)
    decreases more
  {
    if more == [] {
      assert x + more == x;
    } else {
      var y := x + [more[0]];
      assert y[..|x|] == x && y + more[1..] == x + more;
      KeepMore(y, more[1..]);
      assert Keep(y)[..|Keep(x)|] == Keep(x);
    }
  }

  lemma KeptThen(x: seq<Run>, more: seq<Run>, k: Run)
    requires k in Keep(x)
    ensures k in Keep(x + more)
  {
    KeepMore(x, more);
    var i :| 0 <= i < |Keep(x)| && Keep(x)[i] == k;
    assert Keep(x + more)[i] == k;
  }

  /** A run is kept, or a run at least as long that covers one of its hops is. */
  lemma {:induction false} KeptOrOutdone(x: seq<Run>, r: Run)
    requires Shortening(x) && r in x
    ensures r in Keep(x) || exists k :: k in Keep(x) && Clash(r, k) && k.n >= r.n
  {
    var n := |x| - 1;
    var before := Keep(x[..n]);
    assert forall k :: k in before ==> k in Keep(x);
    if r in x[..n] {
      KeptOrOutdone(x[..n], r);
    } else {
      assert r == x[n];
      hide Keep;
      if !Free(r, before) {
        var k :| k in before && Clash(r, k);
        assert k in x[..n];
      }
    }
  }

  /** The runs kept, by start. sorted is what the sort by length leaves. */
  method LongestFirst(runs: seq<Run>, sorted: seq<Run>) returns (out: seq<Run>)
    requires LongFirst(runs, sorted)
    ensures SortedBy(out, StartLe) && multiset(out) == multiset(Keep(sorted)) <= multiset(runs)
    ensures forall i, j :: 0 <= i < j < |out| && out[i].n > 0 && out[j].n > 0 ==> out[i].a + out[i].n <= out[j].a
    ensures forall r :: r in runs ==> r in out || exists k :: k in out && Clash(r, k) && k.n >= r.n
  {
    var kept: seq<Run> := [];
    for i := 0 to |sorted|
      invariant kept == Keep(sorted[..i])
    {
      var r := sorted[i];
      assert sorted[..i + 1][..i] == sorted[..i];
      var clash := false;
      var j := 0;
      while j < |kept| && !clash
        invariant j <= |kept| && (clash <==> exists k :: k in kept[..j] && Clash(r, k))
      {
        clash := Clash(r, kept[j]);
        j := j + 1;
      }
      assert clash ==> !Free(r, kept);
      assert !clash ==> kept[..j] == kept;
      if !clash {
        kept := kept + [r];
      }
    }
    assert sorted[..|sorted|] == sorted;
    out := StableSort(kept, StartLe);
    StableSortSorts(kept, StartLe);
    KeptAreRuns(sorted);
    SameMembers(kept, out);
    SameMembers(runs, sorted);
    forall r | r in runs ensures r in out || exists k :: k in out && Clash(r, k) && k.n >= r.n {
      KeptOrOutdone(sorted, r);
    }
    ApartByStart(kept, out);
  }

  lemma SameMembers(a: seq<Run>, b: seq<Run>)
    requires multiset(a) == multiset(b)
    ensures forall r :: r in a <==> r in b
  {
    assert forall r :: r in a <==> r in multiset(a);
    assert forall r :: r in b <==> r in multiset(b);
  }

  lemma ApartByStart(kept: seq<Run>, out: seq<Run>)
    requires Apart(kept) && multiset(kept) == multiset(out) && SortedBy(out, StartLe)
    ensures forall i, j :: 0 <= i < j < |out| && out[i].n > 0 && out[j].n > 0 ==> out[i].a + out[i].n <= out[j].a
  {
    forall i, j | 0 <= i < j < |out| && out[i].n > 0 && out[j].n > 0 ensures out[i].a + out[i].n <= out[j].a {
      SameMembers(kept, out);
      if out[i] == out[j] {
        TwiceIn(out, i, j);
        TwoPlaces(kept, out[i]);
      } else {
        ApartMembers(kept, out[i], out[j]);
        assert StartLe(out[i], out[j]);
      }
    }
  }

  lemma ApartMembers(kept: seq<Run>, r: Run, k: Run)
    requires Apart(kept) && r in kept && k in kept && r != k
    ensures !Clash(r, k)
  {
    var i :| 0 <= i < |kept| && kept[i] == r;
    var j :| 0 <= j < |kept| && kept[j] == k;
  }

  lemma TwiceIn(s: seq<Run>, i: nat, j: nat)
    requires i < j < |s| && s[i] == s[j]
    ensures multiset(s)[s[i]] >= 2
  {
    assert s == s[..i] + [s[i]] + s[i + 1..j] + [s[j]] + s[j + 1..];
  }

  /** A run of some length clashes with itself, so it is kept once. */
  lemma TwoPlaces(kept: seq<Run>, r: Run)
    requires Apart(kept) && r.n > 0
    ensures multiset(kept)[r] < 2
  {
    if multiset(kept)[r] >= 2 {
      assert r in multiset(kept);
      var p :| 0 <= p < |kept| && kept[p] == r;
      assert kept == kept[..p] + [r] + kept[p + 1..];
      assert r in multiset(kept[..p] + kept[p + 1..]);
      assert Clash(r, r);
    }
  }

  /** Runs of some length kept start apart, so any sort by start leaves the same list. */
  lemma OneOrderByStart(kept: seq<Run>, y: seq<Run>)
    requires Apart(kept) && (forall k :: k in kept ==> k.n > 0)
    requires multiset(y) == multiset(kept) && SortedBy(y, StartLe)
    ensures y == StableSort(kept, StartLe)
  {
    SameMembers(kept, y);
    StableSortSorts(kept, StartLe);
    forall r, k | r in y && k in y && StartLe(r, k) && StartLe(k, r) ensures r == k {
      if r != k {
        ApartMembers(kept, r, k);
      }
    }
    SortedUnique(y, StableSort(kept, StartLe), StartLe);
  }

  // ----- runs of one length -----

  /** Of two runs of one length that cover the same hops, no longer run kept covers either. */
  ghost predicate TieOpen(runs: seq<Run>, x: seq<Run>, r: Run, k: Run) {
    && LongFirst(runs, x) && r in runs && k in runs && r != k && r.n == k.n && Clash(r, k)
    && OpenTo(r, x) && OpenTo(k, x)
  }

  ghost predicate OpenTo(r: Run, x: seq<Run>) {
    forall k :: k in Keep(x) && k.n > r.n ==> !Clash(r, k)
  }

  /** Every order of the runs of one length keeps the same runs exactly when no such two are left open. */
  lemma OrderMattersExactlyWhen(runs: seq<Run>)
    ensures (forall x, y, r :: LongFirst(runs, x) && LongFirst(runs, y) && r in Keep(x) ==> r in Keep(y))
      <==> !exists x, r, k :: TieOpen(runs, x, r, k)
  {
    if x, r, k :| TieOpen(runs, x, r, k) {
      var y := Sooner(runs, x, r, k);
      var z := Sooner(runs, x, k, r);
      assert r in Keep(y) && r !in Keep(z);
    } else {
      forall x, y, r | LongFirst(runs, x) && LongFirst(runs, y) && r in Keep(x) ensures r in Keep(y) {
        KeptAlike(runs, x, y, r, Longest(x));
      }
    }
  }

  function Longest(x: seq<Run>): (n: nat)
    ensures forall r :: r in x ==> r.n <= n
  {
    if x == [] then 0 else
      var n := Longest(x[1..]);
      if x[0].n > n then x[0].n else n
  }

  lemma {:induction false} KeptAlike(runs: seq<Run>, x: seq<Run>, y: seq<Run>, r: Run, top: nat)
    requires LongFirst(runs, x) && LongFirst(runs, y) && r in Keep(x)
    requires !exists x, r, k :: TieOpen(runs, x, r, k)
    requires forall k :: k in x ==> k.n <= top
    ensures r in Keep(y)
    decreases top - r.n
  {
    SameMembers(x, runs);
    SameMembers(y, runs);
    if r !in Keep(y) {
      KeptOrOutdone(y, r);
      var k :| k in Keep(y) && Clash(r, k) && k.n >= r.n;
      assert k in x;
      if k.n > r.n {
        KeptAlike(runs, y, x, k, top);
        ApartMembers(Keep(x), r, k);
      } else {
        forall other | other in Keep(x) && other.n > k.n ensures !Clash(k, other) {
          KeptAlike(runs, x, y, other, top);
          ApartMembers(Keep(y), k, other);
        }
        forall other | other in Keep(x) && other.n > r.n ensures !Clash(r, other) {
          ApartMembers(Keep(x), r, other);
        }
        assert TieOpen(runs, x, r, k);
      }
    }
  }

  /** With r brought before the others of its length, r is kept and k is not. */
  lemma Sooner(runs: seq<Run>, x: seq<Run>, r: Run, k: Run) returns (y: seq<Run>)
    requires TieOpen(runs, x, r, k) || TieOpen(runs, x, k, r)
    ensures LongFirst(runs, y) && r in Keep(y) && k !in Keep(y)
  {
    SameMembers(x, runs);
    var j :| 0 <= j < |x| && x[j] == r;
    var i := FirstOf(x, r, j);
    var front, rest := x[..i] + [r], x[i..j] + x[j + 1..];
    y := front + rest;
    Moved(runs, x, i, j);
    KeptNow(x, i, r);
    KeptThen(front, rest, r);
    hide Keep, LongFirst;
    if k in Keep(y) {
      ApartMembers(Keep(y), r, k);
    }
  }

  lemma KeptNow(x: seq<Run>, i: nat, r: Run)
    requires i <= |x| && OpenTo(r, x) && forall p :: 0 <= p < i ==> x[p].n > r.n
    ensures r in Keep(x[..i] + [r])
  {
    assert (x[..i] + [r])[..i] == x[..i] && x[..i] + x[i..] == x;
    forall k | k in Keep(x[..i]) ensures !Clash(r, k) {
      KeptThen(x[..i], x[i..], k);
    }
  }

  lemma FirstOf(x: seq<Run>, r: Run, j: nat) returns (i: nat)
    requires j < |x| && x[j] == r && Shortening(x)
    ensures i <= j && (forall p :: 0 <= p < i ==> x[p].n > r.n) && forall p :: i <= p < |x| ==> x[p].n <= r.n
  {
    i := 0;
    while x[i].n > r.n
      invariant i <= j && forall p :: 0 <= p < i ==> x[p].n > r.n
      decreases j - i
    {
      i := i + 1;
    }
  }

  lemma Moved(runs: seq<Run>, x: seq<Run>, i: nat, j: nat)
    requires LongFirst(runs, x) && i <= j < |x|
    requires (forall p :: 0 <= p < i ==> x[p].n > x[j].n) && forall p :: i <= p < |x| ==> x[p].n <= x[j].n
    ensures LongFirst(runs, (x[..i] + [x[j]]) + (x[i..j] + x[j + 1..]))
  {
    hide Shortening;
    var y := (x[..i] + [x[j]]) + (x[i..j] + x[j + 1..]);
    SameRuns(x[..i], x[i..j], x[j], x[j + 1..]);
    CutTwice(x, i, j);
    MovedAt(x, i, j);
    MovedPlaces(x, y, i, j);
  }

  lemma CutTwice(x: seq<Run>, i: nat, j: nat)
    requires i <= j < |x|
    ensures x[..i] + x[i..j] + [x[j]] + x[j + 1..] == x
  {
  }

  lemma MovedAt(x: seq<Run>, i: nat, j: nat)
    requires i <= j < |x|
    ensures var y := (x[..i] + [x[j]]) + (x[i..j] + x[j + 1..]);
            && |y| == |x| && (forall p :: 0 <= p < i ==> y[p] == x[p]) && y[i] == x[j]
            && (forall p :: i < p <= j ==> y[p] == x[p - 1]) && forall p :: j < p < |x| ==> y[p] == x[p]
  {
  }

  lemma SameRuns(a: seq<Run>, b: seq<Run>, r: Run, c: seq<Run>)
    ensures multiset((a + [r]) + (b + c)) == multiset(a + b + [r] + c)
  {
    assert multiset((a + [r]) + (b + c)) == multiset(a) + multiset{r} + multiset(b) + multiset(c);
    assert multiset(a + b + [r] + c) == multiset(a) + multiset(b) + multiset{r} + multiset(c);
  }

  lemma MovedPlaces(x: seq<Run>, y: seq<Run>, i: nat, j: nat)
    requires Shortening(x) && i <= j < |x| == |y|
    requires (forall p :: 0 <= p < i ==> y[p] == x[p]) && y[i] == x[j]
    requires (forall p :: i < p <= j ==> y[p] == x[p - 1]) && forall p :: j < p < |x| ==> y[p] == x[p]
    requires forall p :: i <= p < |x| ==> x[p].n <= x[j].n
    ensures Shortening(y)
  {
  }
}
