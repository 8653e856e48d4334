/** Histories of timed hits, seen through a sliding window. */
module Windows {
  /** Something that happened at a time, and how much it counts for. */
  datatype Hit = Hit(at: int, n: nat)

  /** The hits after a time, in their order. */
  function Since(hits: seq<Hit>, cut: int): (r: seq<Hit>)
    ensures |r| <= |hits|
  {
    if hits == [] then []
    else (if hits[0].at > cut then [hits[0]] else []) + Since(hits[1..], cut)
  }

  /** The hits up to a time. */
  function Until(hits: seq<Hit>, now: int): (r: seq<Hit>)
    ensures |r| <= |hits|
  {
    if hits == [] then []
    else (if hits[0].at <= now then [hits[0]] else []) + Until(hits[1..], now)
  }

  function Sum(hits: seq<Hit>): nat {
    if hits == [] then 0 else hits[0].n + Sum(hits[1..])
  }

  /** The hits of the window of a length that ends at now. */
  function Window(hits: seq<Hit>, length: int, now: int): seq<Hit> {
    Until(Since(hits, now - length), now)
  }

  predicate NoneAfter(hits: seq<Hit>, now: int) {
    forall i :: 0 <= i < |hits| ==> hits[i].at <= now
  }

  lemma Reassociate(a: seq<Hit>, b: seq<Hit>, c: seq<Hit>)
    ensures a + (b + c) == a + b + c
  {
  }

  lemma {:induction false} SinceConcat(a: seq<Hit>, b: seq<Hit>, cut: int)
    ensures Since(a + b, cut) == Since(a, cut) + Since(b, cut)
  {
    if a == [] {
      assert a + b == b;
    } else {
      assert (a + b)[0] == a[0] && (a + b)[1..] == a[1..] + b;
      SinceConcat(a[1..], b, cut);
      Reassociate(if a[0].at > cut then [a[0]] else [], Since(a[1..], cut), Since(b, cut));
    }
  }

  lemma {:induction false} UntilConcat(a: seq<Hit>, b: seq<Hit>, now: int)
    ensures Until(a + b, now) == Until(a, now) + Until(b, now)
  {
    if a == [] {
      assert a + b == b;
    } else {
      assert (a + b)[0] == a[0] && (a + b)[1..] == a[1..] + b;
      UntilConcat(a[1..], b, now);
      Reassociate(if a[0].at <= now then [a[0]] else [], Until(a[1..], now), Until(b, now));
    }
  }

  lemma {:induction false} SinceSince(hits: seq<Hit>, a: int, b: int)
    ensures Since(Since(hits, a), b) == Since(hits, if a < b then b else a)
  {
    if hits != [] {
      SinceSince(hits[1..], a, b);
      var first := if hits[0].at > a then [hits[0]] else [];
      SinceConcat(first, Since(hits[1..], a), b);
      if hits[0].at > a {
        SinceOne(hits[0], b);
      }
    }
  }

  lemma SinceOne(h: Hit, cut: int)
    ensures Since([h], cut) == if h.at > cut then [h] else []
  {
    assert [h][1..] == [];
  }

  lemma {:induction false} UntilAll(hits: seq<Hit>, now: int)
    requires NoneAfter(hits, now)
    ensures Until(hits, now) == hits
  {
    if hits != [] {
      UntilAll(hits[1..], now);
    }
  }

  lemma {:induction false} SinceNoneAfter(hits: seq<Hit>, cut: int, now: int)
    requires NoneAfter(hits, now)
    ensures NoneAfter(Since(hits, cut), now)
  {
    if hits != [] {
      SinceNoneAfter(hits[1..], cut, now);
    }
  }

  lemma {:induction false} SumConcat(a: seq<Hit>, b: seq<Hit>)
    ensures Sum(a + b) == Sum(a) + Sum(b)
  {
    if a == [] {
      assert a + b == b;
    } else {
      assert (a + b)[1..] == a[1..] + b;
      SumConcat(a[1..], b);
    }
  }

  /** Fewer hits, and no more counted, in what is left of a window later. */
  lemma {:induction false} SinceShrinks(hits: seq<Hit>, cut: int)
    ensures Sum(Since(hits, cut)) <= Sum(hits)
    ensures |Since(hits, cut)| == |hits| ==> Since(hits, cut) == hits
  {
    if hits != [] {
      SinceShrinks(hits[1..], cut);
      var first := if hits[0].at > cut then [hits[0]] else [];
      SumConcat(first, Since(hits[1..], cut));
    }
  }

  /** A later window holds part of what an earlier one that reaches the last hit holds. */
  lemma LaterWindow(hits: seq<Hit>, length: int, now: int, later: int)
    requires NoneAfter(hits, now) && now <= later
    ensures Window(hits, length, later) == Since(Since(hits, now - length), later - length)
    ensures |Window(hits, length, later)| <= |Since(hits, now - length)|
    ensures Sum(Window(hits, length, later)) <= Sum(Since(hits, now - length))
  {
    hide Since, Until, Sum;
    SinceSince(hits, now - length, later - length);
    SinceNoneAfter(hits, later - length, later);
    UntilAll(Since(hits, later - length), later);
    SinceShrinks(Since(hits, now - length), later - length);
  }

  /** A hit now is in the windows that end from now on, and in no window that ended before. */
  lemma WindowWithHit(hits: seq<Hit>, h: Hit, length: int, t: int)
    requires length > 0
    ensures t < h.at ==> Window(hits + [h], length, t) == Window(hits, length, t)
    ensures h.at <= t ==> Window(hits + [h], length, t) == Window(hits, length, t) + Since([h], t - length)
  {
    SinceConcat(hits, [h], t - length);
    SinceOne(h, t - length);
    var last := Since([h], t - length);
    UntilConcat(Since(hits, t - length), last, t);
    assert last == [h] || last == [];
    UntilOne(h, t);
  }

  lemma UntilOne(h: Hit, now: int)
    ensures Until([h], now) == if h.at <= now then [h] else []
  {
    assert [h][1..] == [];
  }

  // ----- windows as sets of the hits' places in the history -----

  /** The places of the hits after from, up to to. */
  ghost function Places(hits: seq<Hit>, from: int, to: int): set<nat> {
    set i: nat | i < |hits| && from < hits[i].at <= to
  }

  /** What the hits after from, up to to, count for. */
  function Amount(hits: seq<Hit>, from: int, to: int): nat {
    if hits == [] then 0
    else
      var n := |hits| - 1;
      Amount(hits[..n], from, to) + if from < hits[n].at <= to then hits[n].n else 0
  }

  lemma {:induction false} WindowPlaces(hits: seq<Hit>, length: int, now: int)
    requires length > 0
    ensures |Window(hits, length, now)| == |Places(hits, now - length, now)|
    ensures Sum(Window(hits, length, now)) == Amount(hits, now - length, now)
  {
    if hits == [] {
      assert Places(hits, now - length, now) == {};
    } else {
      var n, from := |hits| - 1, now - length;
      var init, last := hits[..n], hits[n];
      WindowPlaces(init, length, now);
      assert hits == init + [last];
      WindowWithHit(init, last, length, now);
      SinceOne(last, from);
      SumConcat(Window(init, length, now), Since([last], from));
      hide Window;
      assert Places(hits, from, now) == Places(init, from, now) + if from < last.at <= now then {n} else {};
    }
  }

  /** Of a history that has nothing later, all since a time is the window from there. */
  lemma SinceIsWindow(hits: seq<Hit>, length: int, now: int)
    requires NoneAfter(hits, now)
    ensures Since(hits, now - length) == Window(hits, length, now)
  {
    SinceNoneAfter(hits, now - length, now);
    UntilAll(Since(hits, now - length), now);
  }
}
