/** Pairing guide channels with lineup channels: guide keys first, then the best ranks. */
module ChannelMatch {
  import opened Sorting

  // Channels of both kinds stand for their ids. keyed(x, l) says that line l's
  // guide key names guide channel x; rank(x, l) is how well they match, 0 for not.

  datatype Pair = Pair(xml: int, line: int, rank: nat)

  /** Best rank first, then by ids. */
  predicate PairLe(a: Pair, b: Pair) {
    if a.rank != b.rank then a.rank > b.rank
    else if a.xml != b.xml then a.xml < b.xml
    else a.line <= b.line
  }

  ghost predicate Distinct(ids: seq<int>) {
    forall i, j :: 0 <= i < j < |ids| ==> ids[i] != ids[j]
  }

  ghost predicate OneToOne(m: map<int, int>) {
    forall x, y :: x in m && y in m && m[x] == m[y] ==> x == y
  }

  ghost predicate Takes(m: map<int, int>, x: int, l: int) {
    x in m && m[x] == l
  }

  ghost predicate LineTaken(m: map<int, int>, l: int) {
    exists x :: Takes(m, x, l)
  }

  ghost predicate Members(m: map<int, int>, xml: seq<int>, lineup: seq<int>) {
    forall x :: x in m ==> x in xml && m[x] in lineup
  }

  /** used is what the matching has taken on the line side. */
  ghost predicate Tracks(m: map<int, int>, usedLine: set<int>) {
    forall l :: l in usedLine <==> LineTaken(m, l)
  }

  lemma TakeOne(m: map<int, int>, usedLine: set<int>, x: int, l: int)
    requires OneToOne(m) && Tracks(m, usedLine) && x !in m && l !in usedLine
    ensures OneToOne(m[x := l]) && Tracks(m[x := l], usedLine + {l})
    ensures forall y :: y in m ==> y in m[x := l] && m[x := l][y] == m[y]
  {
    var n := m[x := l];
    assert Takes(n, x, l);
    forall y | y in m ensures m[y] in usedLine { assert Takes(m, y, m[y]); }
    forall k ensures k in usedLine + {l} <==> LineTaken(n, k) {
      if k in usedLine {
        var y :| Takes(m, y, k);
        assert Takes(n, y, k);
      }
      if LineTaken(n, k) {
        var y :| Takes(n, y, k);
        if y != x { assert Takes(m, y, k); }
      }
    }
  }

  // ----- guide keys -----

  /** A line has its keyed channel, or every channel its key names went to an earlier line. */
  ghost predicate KeyHonoured(m: map<int, int>, xml: seq<int>, l: int, keyed: (int, int) -> bool) {
    LineTaken(m, l) || forall x :: x in xml && keyed(x, l) ==> x in m
  }

  /** Keys are given out line by line, each to the first free channel it names. */
  ghost predicate ByKey(m: map<int, int>, xml: seq<int>, lineup: seq<int>, keyed: (int, int) -> bool) {
    && OneToOne(m) && Members(m, xml, lineup)
    && (forall x :: x in m ==> keyed(x, m[x]))
    && (forall l :: l in lineup ==> KeyHonoured(m, xml, l, keyed))
  }

  /** Where the first free channel that the line's key names is; |xml| when there is none. */
  function FirstFree(xml: seq<int>, m: map<int, int>, l: int, keyed: (int, int) -> bool): (k: nat)
    ensures k <= |xml|
    ensures k < |xml| ==> xml[k] !in m && keyed(xml[k], l)
    ensures forall j :: 0 <= j < k ==> xml[j] in m || !keyed(xml[j], l)
  {
    if xml == [] || (xml[0] !in m && keyed(xml[0], l)) then 0
    else 1 + FirstFree(xml[1..], m, l, keyed)
  }

  /** The pairs the keys fix, line by line. */
  function KeyMatch(xml: seq<int>, lineup: seq<int>, keyed: (int, int) -> bool): map<int, int> {
    if lineup == [] then map[]
    else
      var m, l := KeyMatch(xml, lineup[..|lineup| - 1], keyed), lineup[|lineup| - 1];
      var k := FirstFree(xml, m, l, keyed);
      if k < |xml| then m[xml[k] := l] else m
  }

  method FirstKeyed(xml: seq<int>, m: map<int, int>, l: int, keyed: (int, int) -> bool) returns (found: bool, x: int)
    ensures var k := FirstFree(xml, m, l, keyed); found == (k < |xml|) && (found ==> x == xml[k])
    ensures found ==> x in xml && x !in m && keyed(x, l)
    ensures !found ==> forall y :: y in xml && keyed(y, l) ==> y in m
  {
    for k := 0 to |xml|
      invariant forall j :: 0 <= j < k && keyed(xml[j], l) ==> xml[j] in m
      invariant FirstFree(xml, m, l, keyed) == k + FirstFree(xml[k..], m, l, keyed)
    {
      assert xml[k..][0] == xml[k] && xml[k..][1..] == xml[k + 1..];
      if xml[k] in m {
        continue;
      }
      if keyed(xml[k], l) {
        return true, xml[k];
      }
    }
    return false, 0;
  }

  method MatchKeys(xml: seq<int>, lineup: seq<int>, keyed: (int, int) -> bool)
    returns (m: map<int, int>, usedLine: set<int>)
    requires Distinct(lineup)
    ensures m == KeyMatch(xml, lineup, keyed)
    ensures ByKey(m, xml, lineup, keyed) && Tracks(m, usedLine)
  {
    hide OneToOne, Tracks, LineTaken, FirstFree;
    m, usedLine := map[], {};
    NothingTaken();
    for i := 0 to |lineup|
      invariant m == KeyMatch(xml, lineup[..i], keyed)
      invariant OneToOne(m) && Tracks(m, usedLine)
      invariant forall l :: l in usedLine ==> l in lineup[..i]
      invariant forall x :: x in m ==> x in xml && m[x] in lineup[..i] && keyed(x, m[x])
      invariant forall l :: l in lineup[..i] ==> KeyHonoured(m, xml, l, keyed)
    {
      var l := lineup[i];
      var found, x := FirstKeyed(xml, m, l, keyed);
      assert lineup[..i + 1] == lineup[..i] + [l] && lineup[..i + 1][..i] == lineup[..i];
      if found {
        assert l !in lineup[..i];
        TakeOne(m, usedLine, x, l);
        HonouredMore(m, usedLine, xml, x, l, keyed);
        m, usedLine := m[x := l], usedLine + {l};
      }
    }
    assert lineup[..|lineup|] == lineup;
  }

  lemma NothingTaken()
    ensures OneToOne(map[]) && Tracks(map[], {})
  {
  }

  lemma HonouredMore(m: map<int, int>, usedLine: set<int>, xml: seq<int>, x: int, l: int, keyed: (int, int) -> bool)
    requires x !in m
    ensures forall k :: KeyHonoured(m, xml, k, keyed) ==> KeyHonoured(m[x := l], xml, k, keyed)
    ensures KeyHonoured(m[x := l], xml, l, keyed)
  {
    var n := m[x := l];
    assert Takes(n, x, l);
    forall k | KeyHonoured(m, xml, k, keyed) ensures KeyHonoured(n, xml, k, keyed) {
      if LineTaken(m, k) {
        var y :| Takes(m, y, k);
        assert Takes(n, y, k);
      }
    }
  }

  // ----- ranks -----

  ghost predicate Candidate(p: Pair, fixed: map<int, int>, usedLine: set<int>, xml: seq<int>, lineup: seq<int>,
                            rank: (int, int) -> nat)
  {
    && p.xml in xml && p.line in lineup && p.xml !in fixed && p.line !in usedLine
    && p.rank == rank(p.xml, p.line) > 0
  }

  /** Every pair still free on both sides that ranks above 0. */
  method Candidates(xml: seq<int>, lineup: seq<int>, fixed: map<int, int>, usedLine: set<int>, rank: (int, int) -> nat)
    returns (pairs: seq<Pair>)
    ensures forall p :: p in pairs <==> Candidate(p, fixed, usedLine, xml, lineup, rank)
  {
    pairs := [];
    for i := 0 to |xml|
      invariant forall p :: p in pairs <==> Candidate(p, fixed, usedLine, xml[..i], lineup, rank)
    {
      assert xml[..i + 1] == xml[..i] + [xml[i]];
      if xml[i] in fixed {
        continue;
      }
      for j := 0 to |lineup|
        invariant forall p :: p in pairs <==>
                    Candidate(p, fixed, usedLine, xml[..i], lineup, rank) || Candidate(p, fixed, usedLine, [xml[i]], lineup[..j], rank)
      {
        assert lineup[..j + 1] == lineup[..j] + [lineup[j]];
        if lineup[j] in usedLine {
          continue;
        }
        var r := rank(xml[i], lineup[j]);
        if r > 0 {
          pairs := pairs + [Pair(xml[i], lineup[j], r)];
        }
      }
      assert lineup[..|lineup|] == lineup;
    }
    assert xml[..|xml|] == xml;
  }

  /** The pair's guide channel has a line it matches better, or as well and of a lower id. */
  ghost predicate XmlContent(m: map<int, int>, fixed: map<int, int>, p: Pair, rank: (int, int) -> nat) {
    && p.xml in m && p.xml !in fixed
    && var l := m[p.xml]; rank(p.xml, l) > p.rank || (rank(p.xml, l) == p.rank && l <= p.line)
  }

  /** The pair's line has a guide channel that matches it better, or as well and of a lower id. */
  ghost predicate LineContent(m: map<int, int>, fixed: map<int, int>, p: Pair, rank: (int, int) -> nat) {
    exists y :: Takes(m, y, p.line) && y !in fixed &&
      (rank(y, p.line) > p.rank || (rank(y, p.line) == p.rank && y <= p.xml))
  }

  /** The pair was taken, or one of its ends is matched better, ties by the ids. */
  ghost predicate Settled(m: map<int, int>, fixed: map<int, int>, p: Pair, rank: (int, int) -> nat) {
    Takes(m, p.xml, p.line) || XmlContent(m, fixed, p, rank) || LineContent(m, fixed, p, rank)
  }

  ghost predicate Extends(m: map<int, int>, fixed: map<int, int>) {
    forall x :: x in fixed ==> x in m && m[x] == fixed[x]
  }

  /** The pairs taken so far come before p: of higher rank, or of its rank and lower ids. */
  ghost predicate Above(m: map<int, int>, fixed: map<int, int>, p: Pair, rank: (int, int) -> nat) {
    forall x :: x in m && x !in fixed ==>
      || rank(x, m[x]) > p.rank
      || (rank(x, m[x]) == p.rank && (x < p.xml || (x == p.xml && m[x] <= p.line)))
  }

  lemma PairOrder()
    ensures TotalPreorder(PairLe)
  {
  }

  lemma SettleMore(m: map<int, int>, fixed: map<int, int>, p: Pair, rank: (int, int) -> nat)
    requires p.xml !in m && p.xml !in fixed
    ensures forall q :: Settled(m, fixed, q, rank) ==> Settled(m[p.xml := p.line], fixed, q, rank)
    ensures Settled(m[p.xml := p.line], fixed, p, rank)
  {
    var n := m[p.xml := p.line];
    forall q | Settled(m, fixed, q, rank) ensures Settled(n, fixed, q, rank) {
      if !Takes(m, q.xml, q.line) && !XmlContent(m, fixed, q, rank) {
        var y :| Takes(m, y, q.line) && y !in fixed &&
          (rank(y, q.line) > q.rank || (rank(y, q.line) == q.rank && y <= q.xml));
        assert Takes(n, y, q.line);
      }
    }
  }

  /** A candidate passed over has an end that was taken before it, in a pair that comes first. */
  lemma PassedOver(m: map<int, int>, fixed: map<int, int>, usedLine: set<int>, keyedLines: set<int>, p: Pair,
                   rank: (int, int) -> nat)
    requires Tracks(m, usedLine) && Tracks(fixed, keyedLines) && Extends(m, fixed) && OneToOne(m)
    requires p.xml !in fixed && p.line !in keyedLines && Above(m, fixed, p, rank)
    requires p.xml in m || p.line in usedLine
    ensures Settled(m, fixed, p, rank)
  {
    if p.xml !in m {
      var y :| Takes(m, y, p.line);
      if y in fixed {
        assert Takes(fixed, y, p.line);
        assert false;
      }
    }
  }

  /** What the whole matching promises; fixed is what the keys fix. */
  ghost predicate Assigned(out: map<int, int>, fixed: map<int, int>, xml: seq<int>, lineup: seq<int>,
                           keyed: (int, int) -> bool, rank: (int, int) -> nat)
  {
    && ByKey(fixed, xml, lineup, keyed) && Extends(out, fixed)
    && OneToOne(out) && Members(out, xml, lineup)
    && (forall x :: x in out && x !in fixed ==> rank(x, out[x]) > 0)
    && (forall x, l :: x in xml && l in lineup && x !in fixed && !LineTaken(fixed, l) && rank(x, l) > 0 ==>
          Settled(out, fixed, Pair(x, l, rank(x, l)), rank))
  }

  /** The matching once the first k pairs of the ranking were looked at. */
  ghost predicate Matching(out: map<int, int>, usedLine: set<int>, fixed: map<int, int>, keyedLines: set<int>,
                           xml: seq<int>, lineup: seq<int>, sorted: seq<Pair>, k: nat, rank: (int, int) -> nat)
  {
    && OneToOne(out) && Tracks(out, usedLine) && Extends(out, fixed) && Members(out, xml, lineup)
    && keyedLines <= usedLine
    && (forall x :: x in out && x !in fixed ==> rank(x, out[x]) > 0)
    && (k < |sorted| ==> Above(out, fixed, sorted[k], rank))
    && (forall j :: 0 <= j < k && j < |sorted| ==> Settled(out, fixed, sorted[j], rank))
  }

  lemma MatchingPasses(out: map<int, int>, usedLine: set<int>, fixed: map<int, int>, keyedLines: set<int>,
                       xml: seq<int>, lineup: seq<int>, sorted: seq<Pair>, k: nat, rank: (int, int) -> nat)
    requires k < |sorted| && Matching(out, usedLine, fixed, keyedLines, xml, lineup, sorted, k, rank)
    requires Tracks(fixed, keyedLines) && Candidate(sorted[k], fixed, keyedLines, xml, lineup, rank)
    requires k + 1 < |sorted| ==> PairLe(sorted[k], sorted[k + 1])
    requires sorted[k].xml in out || sorted[k].line in usedLine
    ensures Matching(out, usedLine, fixed, keyedLines, xml, lineup, sorted, k + 1, rank)
  {
    PassedOver(out, fixed, usedLine, keyedLines, sorted[k], rank);
    hide OneToOne, Tracks, Settled, Members;
  }

  lemma MatchingTakes(out: map<int, int>, usedLine: set<int>, fixed: map<int, int>, keyedLines: set<int>,
                      xml: seq<int>, lineup: seq<int>, sorted: seq<Pair>, k: nat, rank: (int, int) -> nat)
    requires k < |sorted| && Matching(out, usedLine, fixed, keyedLines, xml, lineup, sorted, k, rank)
    requires Candidate(sorted[k], fixed, keyedLines, xml, lineup, rank)
    requires k + 1 < |sorted| ==> PairLe(sorted[k], sorted[k + 1])
    requires sorted[k].xml !in out && sorted[k].line !in usedLine
    ensures var p := sorted[k];
            Matching(out[p.xml := p.line], usedLine + {p.line}, fixed, keyedLines, xml, lineup, sorted, k + 1, rank)
  {
    hide OneToOne, Tracks, Settled;
    TakeOne(out, usedLine, sorted[k].xml, sorted[k].line);
    SettleMore(out, fixed, sorted[k], rank);
  }

  method Assign(xml: seq<int>, lineup: seq<int>, keyed: (int, int) -> bool, rank: (int, int) -> nat)
    returns (out: map<int, int>)
    requires Distinct(lineup)
    ensures Assigned(out, KeyMatch(xml, lineup, keyed), xml, lineup, keyed, rank)
  {
    hide OneToOne, Tracks, Settled, ByKey, KeyMatch;
    var usedLine: set<int>;
    out, usedLine := MatchKeys(xml, lineup, keyed);
    ghost var fixed := out;
    KeyedMembers(fixed, xml, lineup, keyed);
    ghost var keyedLines := usedLine;
    var pairs := Candidates(xml, lineup, out, usedLine, rank);
    var sorted := StableSort(pairs, PairLe);
    SortedPairs(pairs, sorted);
    assert Matching(out, usedLine, fixed, keyedLines, xml, lineup, sorted, 0, rank);
    hide StableSort, PairLe, Matching, Candidate;
    for k := 0 to |sorted|
      invariant Matching(out, usedLine, fixed, keyedLines, xml, lineup, sorted, k, rank)
    {
      var p := sorted[k];
      assert p in sorted && Candidate(p, fixed, keyedLines, xml, lineup, rank);
      if p.xml in out || p.line in usedLine {
        MatchingPasses(out, usedLine, fixed, keyedLines, xml, lineup, sorted, k, rank);
      } else {
        MatchingTakes(out, usedLine, fixed, keyedLines, xml, lineup, sorted, k, rank);
        out, usedLine := out[p.xml := p.line], usedLine + {p.line};
      }
    }
    MatchingDone(out, usedLine, fixed, keyedLines, xml, lineup, sorted, rank);
    AllSettled(out, fixed, keyedLines, pairs, sorted, xml, lineup, rank);
  }

  lemma MatchingDone(out: map<int, int>, usedLine: set<int>, fixed: map<int, int>, keyedLines: set<int>,
                     xml: seq<int>, lineup: seq<int>, sorted: seq<Pair>, rank: (int, int) -> nat)
    requires Matching(out, usedLine, fixed, keyedLines, xml, lineup, sorted, |sorted|, rank)
    ensures OneToOne(out) && Extends(out, fixed) && Members(out, xml, lineup)
    ensures forall x :: x in out && x !in fixed ==> rank(x, out[x]) > 0
    ensures forall j :: 0 <= j < |sorted| ==> Settled(out, fixed, sorted[j], rank)
  {
  }

  lemma KeyedMembers(fixed: map<int, int>, xml: seq<int>, lineup: seq<int>, keyed: (int, int) -> bool)
    requires ByKey(fixed, xml, lineup, keyed)
    ensures OneToOne(fixed) && Members(fixed, xml, lineup)
  {
  }

  lemma SortedPairs(pairs: seq<Pair>, sorted: seq<Pair>)
    requires sorted == StableSort(pairs, PairLe)
    ensures forall p :: p in sorted <==> p in pairs
    ensures SortedBy(sorted, PairLe)
  {
    PairOrder();
    StableSortSorts(pairs, PairLe);
    forall p ensures p in sorted <==> p in pairs {
      assert p in multiset(sorted) <==> p in multiset(pairs);
    }
  }

  lemma AllSettled(out: map<int, int>, fixed: map<int, int>, keyedLines: set<int>, pairs: seq<Pair>, sorted: seq<Pair>,
                   xml: seq<int>, lineup: seq<int>, rank: (int, int) -> nat)
    requires Tracks(fixed, keyedLines)
    requires forall p :: p in pairs <==> Candidate(p, fixed, keyedLines, xml, lineup, rank)
    requires forall p :: p in sorted <==> p in pairs
    requires forall j :: 0 <= j < |sorted| ==> Settled(out, fixed, sorted[j], rank)
    ensures forall x, l :: x in xml && l in lineup && x !in fixed && !LineTaken(fixed, l) && rank(x, l) > 0 ==>
              Settled(out, fixed, Pair(x, l, rank(x, l)), rank)
  {
    hide Settled;
    forall x, l | x in xml && l in lineup && x !in fixed && !LineTaken(fixed, l) && rank(x, l) > 0
      ensures Settled(out, fixed, Pair(x, l, rank(x, l)), rank)
    {
      var p := Pair(x, l, rank(x, l));
      assert Candidate(p, fixed, keyedLines, xml, lineup, rank);
      assert p in sorted;
      var j :| 0 <= j < |sorted| && sorted[j] == p;
    }
  }

  // ----- there is one such matching -----

  ghost predicate Comes(p: Pair, q: Pair) {
    || p.rank > q.rank
    || (p.rank == q.rank && (p.xml < q.xml || (p.xml == q.xml && p.line <= q.line)))
  }

  lemma {:induction false} FirstPair(s: set<Pair>) returns (first: Pair)
    requires s != {}
    ensures first in s && forall p :: p in s ==> Comes(first, p)
    decreases s
  {
    first :| first in s;
    if s != {first} {
      var next := FirstPair(s - {first});
      forall p | p in s ensures p == first || p in s - {first} {
      }
      if Comes(next, first) {
        first := next;
      }
    }
  }

  /** The ranked pairs of a matching that another has not. */
  ghost function Missing(m: map<int, int>, other: map<int, int>, fixed: map<int, int>, rank: (int, int) -> nat): set<Pair> {
    set x | x in m && x !in fixed && !Takes(other, x, m[x]) :: Pair(x, m[x], rank(x, m[x]))
  }

  /** Of a pair that only one matching has, the other has one of the ends in a pair that comes before it. */
  lemma BetterMissing(m: map<int, int>, other: map<int, int>, fixed: map<int, int>, p: Pair, rank: (int, int) -> nat)
    returns (q: Pair)
    requires OneToOne(m) && p in Missing(m, other, fixed, rank) && Settled(other, fixed, p, rank)
    ensures q in Missing(other, m, fixed, rank) && !Comes(p, q)
  {
    assert Takes(m, p.xml, p.line);
    var y := p.xml;
    if !XmlContent(other, fixed, p, rank) {
      y :| Takes(other, y, p.line) && y !in fixed &&
        (rank(y, p.line) > p.rank || (rank(y, p.line) == p.rank && y <= p.xml));
    }
    q := Pair(y, other[y], rank(y, other[y]));
    assert Takes(other, y, q.line) && !Takes(m, y, q.line);
  }

  /** The keys and ranks leave one matching, so nothing else decides it. */
  lemma OneMatching(a: map<int, int>, b: map<int, int>, fixed: map<int, int>, xml: seq<int>, lineup: seq<int>,
                    keyed: (int, int) -> bool, rank: (int, int) -> nat)
    requires Assigned(a, fixed, xml, lineup, keyed, rank) && Assigned(b, fixed, xml, lineup, keyed, rank)
    ensures a == b
  {
    hide Comes, Settled;
    var s := Missing(a, b, fixed, rank) + Missing(b, a, fixed, rank);
    if s != {} {
      var p := FirstPair(s);
      if p in Missing(a, b, fixed, rank) {
        RankedPair(a, fixed, xml, lineup, keyed, rank, p.xml);
        var q := BetterMissing(a, b, fixed, p, rank);
      } else {
        RankedPair(b, fixed, xml, lineup, keyed, rank, p.xml);
        var q := BetterMissing(b, a, fixed, p, rank);
      }
    }
    SameWhenNoneMissing(a, b, fixed, rank);
    SameWhenNoneMissing(b, a, fixed, rank);
    assert forall x :: x in a <==> x in b;
    assert forall x :: x in a ==> a[x] == b[x];
  }

  lemma RankedPair(m: map<int, int>, fixed: map<int, int>, xml: seq<int>, lineup: seq<int>,
                   keyed: (int, int) -> bool, rank: (int, int) -> nat, x: int)
    requires Assigned(m, fixed, xml, lineup, keyed, rank) && x in m && x !in fixed
    ensures x in xml && m[x] in lineup && !LineTaken(fixed, m[x]) && rank(x, m[x]) > 0
  {
    forall y ensures !Takes(fixed, y, m[x]) {
      if y in fixed {
        assert y in m && m[y] == fixed[y];
      }
    }
  }

  lemma SameWhenNoneMissing(a: map<int, int>, b: map<int, int>, fixed: map<int, int>, rank: (int, int) -> nat)
    requires Extends(a, fixed) && Extends(b, fixed) && Missing(a, b, fixed, rank) == {}
    ensures forall x :: x in a ==> x in b && b[x] == a[x]
  {
    forall x | x in a ensures x in b && b[x] == a[x] {
      assert Pair(x, a[x], rank(x, a[x])) !in Missing(a, b, fixed, rank);
      assert x in fixed || Takes(b, x, a[x]);
    }
  }
}
