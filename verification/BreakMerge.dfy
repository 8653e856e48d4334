/** Joining the break spans found in a recording into the breaks it has. Times are seconds from its start. */
module BreakMerge {
  import opened Collections
  import opened SpotChains
  import Sorting

  /** Under this far apart is one break with a spot that was missed. */
  const BREAK_GAP := 40.0

  /** How many of the seconds from..to - 1 have the logo off. */
  function OffSeconds(logo: seq<bool>, from: nat, to: nat): (n: nat)
    requires from <= to <= |logo|
    ensures n <= to - from
  {
    if from == to then 0 else OffSeconds(logo, from, to - 1) + if logo[to - 1] then 0 else 1
  }

  function Second(logo: seq<bool>, t: real): (i: nat)
    requires t >= 0.0
    ensures i <= |logo|
  {
    if t.Floor < |logo| then t.Floor else |logo|
  }

  /** The share of the known seconds between two times that have the logo off. */
  function Share(logo: seq<bool>, from: real, to: real): real
    requires 0.0 <= from && 0.0 <= to
  {
    var a, b := Second(logo, from), Second(logo, to);
    if a >= b then 0.0 else OffSeconds(logo, a, b) as real / (b - a) as real
  }

  predicate Lies(i: int, from: real, to: real) { from.Floor <= i < to.Floor }

  /** The seconds between two times that the logo list knows. */
  ghost function Known(logo: seq<bool>, from: real, to: real): set<int> {
    set i | 0 <= i < |logo| && Lies(i, from, to)
  }

  /** Those of them in which the logo is off. */
  ghost function Off(logo: seq<bool>, from: real, to: real): set<int> {
    set i | 0 <= i < |logo| && Lies(i, from, to) && !logo[i]
  }

  function Between(a: int, b: int): (r: set<int>)
    ensures forall i :: i in r <==> a <= i < b
    ensures |r| == if a < b then b - a else 0
    decreases b - a
  {
    if a >= b then {} else Between(a, b - 1) + {b - 1}
  }

  function OffBetween(logo: seq<bool>, a: nat, b: nat): (r: set<int>)
    requires a <= b <= |logo|
    ensures forall i :: i in r <==> a <= i < b && !logo[i]
    ensures |r| == OffSeconds(logo, a, b)
  {
    if a == b then {} else OffBetween(logo, a, b - 1) + if logo[b - 1] then {} else {b - 1}
  }

  lemma KnownCounted(logo: seq<bool>, from: real, to: real)
    requires 0.0 <= from && 0.0 <= to
    ensures var a, b := Second(logo, from), Second(logo, to);
            |Known(logo, from, to)| == (if a < b then b - a else 0) && (Known(logo, from, to) == {} <==> a >= b)
  {
    assert Known(logo, from, to) == Between(Second(logo, from), Second(logo, to));
  }

  lemma OffCounted(logo: seq<bool>, from: real, to: real)
    requires 0.0 <= from && 0.0 <= to
    ensures var a, b := Second(logo, from), Second(logo, to);
            |Off(logo, from, to)| == if a < b then OffSeconds(logo, a, b) else 0
  {
    var a, b := Second(logo, from), Second(logo, to);
    assert Off(logo, from, to) == if a < b then OffBetween(logo, a, b) else {};
  }

  /** The share times the known seconds is the number with the logo off; with none known it is nothing. */
  lemma ShareCounted(logo: seq<bool>, from: real, to: real)
    requires 0.0 <= from && 0.0 <= to
    ensures Share(logo, from, to) * |Known(logo, from, to)| as real == |Off(logo, from, to)| as real
    ensures Known(logo, from, to) == {} ==> Share(logo, from, to) == 0.0
  {
    KnownCounted(logo, from, to);
    OffCounted(logo, from, to);
    var a, b := Second(logo, from), Second(logo, to);
    if a < b {
      Divided(OffSeconds(logo, a, b) as real, (b - a) as real);
    }
    hide Known, Off;
  }

  lemma Divided(x: real, n: real)
    requires n > 0.0
    ensures (x / n) * n == x
  {
  }

  method OffShare(logo: seq<bool>, from: real, to: real) returns (share: real)
    requires 0.0 <= from && 0.0 <= to
    ensures share == Share(logo, from, to)
    ensures share * |Known(logo, from, to)| as real == |Off(logo, from, to)| as real
    ensures Known(logo, from, to) == {} ==> share == 0.0
  {
    var off, total := 0, 0;
    var i := from.Floor;
    while i < to.Floor && i < |logo|
      invariant from.Floor <= i && total == i - from.Floor
      invariant i == from.Floor || i <= Second(logo, to)
      invariant off == if i <= |logo| then OffSeconds(logo, Second(logo, from), i) else 0
    {
      total := total + 1;
      if !logo[i] {
        off := off + 1;
      }
      i := i + 1;
    }
    share := if total == 0 then 0.0 else off as real / total as real;
    ShareCounted(logo, from, to);
  }

  /** The show is back: the logo is on for most of the seconds between. */
  predicate LogoOnBetween(logo: seq<bool>, from: real, to: real)
    requires 0.0 <= from && 0.0 <= to
  {
    logo != [] && to - from >= 1.0 && Share(logo, from, to) < 0.5
  }

  predicate Timed(s: Break) { 0.0 <= s.start <= s.end }

  predicate AllTimed(spans: seq<Break>) {
    forall i :: 0 <= i < |spans| ==> Timed(spans[i])
  }

  predicate ByStart(spans: seq<Break>) {
    forall i, j :: 0 <= i < j < |spans| ==> spans[i].start <= spans[j].start
  }

  function Max(a: real, b: real): real { if a < b then b else a }

  predicate Joins(last: Break, s: Break, logo: seq<bool>)
    requires Timed(last) && Timed(s)
  {
    && s.start <= last.end + BREAK_GAP
    && (s.start < last.end || s.end - last.start <= LONGEST_BREAK)
    && !LogoOnBetween(logo, last.end, s.start)
  }

  /** One more span, in order of start. */
  function Add(out: seq<Break>, s: Break, logo: seq<bool>): (r: seq<Break>)
    requires AllTimed(out) && Timed(s)
    ensures AllTimed(r)
  {
    var n := |out|;
    if n > 0 && Joins(out[n - 1], s, logo) then
      out[..n - 1] + [Break(out[n - 1].start, Max(out[n - 1].end, s.end))]
    else out + [s]
  }

  function Merged(spans: seq<Break>, logo: seq<bool>): (r: seq<Break>)
    requires AllTimed(spans)
    ensures AllTimed(r)
  {
    if spans == [] then []
    else Add(Merged(spans[..|spans| - 1], logo), spans[|spans| - 1], logo)
  }

  /** sorted is the spans as any sort by start leaves them. */
  method Merge(sorted: seq<Break>, logo: seq<bool>) returns (out: seq<Break>)
    requires AllTimed(sorted)
    ensures out == Merged(sorted, logo)
  {
    hide LogoOnBetween;
    out := [];
    for i := 0 to |sorted|
      invariant out == Merged(sorted[..i], logo)
    {
      MergedSnoc(sorted, i, logo);
      hide Merged;
      var s := sorted[i];
      var n := |out|;
      if n > 0 && s.start <= out[n - 1].end + BREAK_GAP
        && (s.start < out[n - 1].end || s.end - out[n - 1].start <= LONGEST_BREAK)
        && !LogoOnBetween(logo, out[n - 1].end, s.start)
      {
        out := out[..n - 1] + [Break(out[n - 1].start, Max(out[n - 1].end, s.end))];
        continue;
      }
      out := out + [s];
    }
    assert sorted[..|sorted|] == sorted;
  }

  lemma MergedSnoc(spans: seq<Break>, n: nat, logo: seq<bool>)
    requires AllTimed(spans) && n < |spans|
    ensures Merged(spans[..n + 1], logo) == Add(Merged(spans[..n], logo), spans[n], logo)
  {
    hide Add;
    assert spans[..n + 1][..n] == spans[..n];
  }

  // ----- when two spans are one break, on the seconds of the logo themselves -----

  /**
    A span continues a break that starts no later: at most 40 s from its end,
    not past 240 s from its start unless they overlap, and, unless less than a
    second lies between or no logo is known at all, with the logo off in half or
    more of the seconds known between, and some known.
  */
  ghost predicate Continues(last: Break, s: Break, logo: seq<bool>) {
    && s.start - last.end <= 40.0
    && (s.start < last.end || s.end - last.start <= 240.0)
    && (|| logo == [] || s.start - last.end < 1.0
        || (Known(logo, last.end, s.start) != {}
            && 2 * |Off(logo, last.end, s.start)| >= |Known(logo, last.end, s.start)|))
  }

  lemma JoinsExactlyWhen(last: Break, s: Break, logo: seq<bool>)
    requires Timed(last) && Timed(s)
    ensures Joins(last, s, logo) <==> Continues(last, s, logo)
  {
    ShareCounted(logo, last.end, s.start);
    HalfOf(Share(logo, last.end, s.start), |Known(logo, last.end, s.start)|, |Off(logo, last.end, s.start)|);
    hide Share, Known, Off;
  }

  lemma HalfOf(share: real, known: nat, off: nat)
    requires share * known as real == off as real && (known == 0 ==> share == 0.0)
    ensures share < 0.5 <==> known == 0 || 2 * off < known
  {
    if known > 0 {
      HalfTimes(share, known as real, off as real);
    }
  }

  lemma HalfTimes(share: real, n: real, o: real)
    requires n > 0.0 && share * n == o
    ensures share < 0.5 <==> 2.0 * o < n
  {
    assert share < 0.5 <==> (0.5 - share) * n > 0.0;
    assert (0.5 - share) * n == 0.5 * n - o;
  }

  /** Two spans are merged into one break exactly when the second continues the first. */
  lemma TwoMerged(a: Break, b: Break, logo: seq<bool>)
    requires Timed(a) && Timed(b)
    ensures Merged([a, b], logo) ==
      if Continues(a, b, logo) then [Break(a.start, if a.end < b.end then b.end else a.end)] else [a, b]
  {
    hide Continues, Joins;
    JoinsExactlyWhen(a, b, logo);
    assert [a, b][..1] == [a] && [a][..0] == [];
    assert Merged([a], logo) == [a];
  }

  /** The breaks with one more span: it grows the last break if it continues it, and else starts a break. */
  ghost function With(out: seq<Break>, s: Break, logo: seq<bool>): seq<Break>
    requires out != []
  {
    var n := |out| - 1;
    if Continues(out[n], s, logo) then out[..n] + [Break(out[n].start, if out[n].end < s.end then s.end else out[n].end)]
    else out + [s]
  }

  lemma AddIsWith(out: seq<Break>, s: Break, logo: seq<bool>)
    requires AllTimed(out) && Timed(s) && out != []
    ensures Add(out, s, logo) == With(out, s, logo)
  {
    hide Continues, Joins;
    JoinsExactlyWhen(out[|out| - 1], s, logo);
  }

  lemma MoreMerged(spans: seq<Break>, s: Break, logo: seq<bool>)
    requires AllTimed(spans) && Timed(s) && spans != []
    ensures AllTimed(spans + [s]) && Merged(spans, logo) != []
    ensures Merged(spans + [s], logo) == With(Merged(spans, logo), s, logo)
  {
    hide Add, Merged, With;
    SomeMerged(spans, logo);
    var x := spans + [s];
    assert x[..|spans|] == spans && x[..|spans| + 1] == x;
    MergedSnoc(x, |spans|, logo);
    AddIsWith(Merged(spans, logo), s, logo);
  }

  lemma SomeMerged(spans: seq<Break>, logo: seq<bool>)
    requires AllTimed(spans) && spans != []
    ensures Merged(spans, logo) != []
  {
    hide Joins;
  }

  // ----- each break is the hull of a group of neighbouring spans -----

  function LatestEnd(g: seq<Break>): (e: real)
    requires g != []
    ensures forall i :: 0 <= i < |g| ==> g[i].end <= e
    ensures exists i :: 0 <= i < |g| && g[i].end == e
  {
    if |g| == 1 then g[0].end
    else Max(LatestEnd(g[..|g| - 1]), g[|g| - 1].end)
  }

  function Hull(g: seq<Break>): Break
    requires g != []
  {
    Break(g[0].start, LatestEnd(g))
  }

  ghost predicate Groups(groups: seq<seq<Break>>, spans: seq<Break>) {
    (forall k :: 0 <= k < |groups| ==> groups[k] != []) && Flatten(groups) == spans
  }

  ghost predicate AreHulls(out: seq<Break>, groups: seq<seq<Break>>) {
    |out| == |groups| && forall k :: 0 <= k < |groups| ==> groups[k] != [] && out[k] == Hull(groups[k])
  }

  lemma {:induction false} HullGrows(g: seq<Break>, s: Break)
    requires g != []
    ensures Hull(g + [s]) == Break(Hull(g).start, Max(Hull(g).end, s.end))
  {
    assert (g + [s])[..|g|] == g;
  }

  /** The breaks are the hulls of the spans cut into groups of neighbours. */
  lemma {:induction false} HullsOfGroups(spans: seq<Break>, logo: seq<bool>) returns (groups: seq<seq<Break>>)
    requires AllTimed(spans)
    ensures Groups(groups, spans) && AreHulls(Merged(spans, logo), groups)
  {
    if spans == [] {
      groups := [];
    } else {
      hide Add, Flatten, Hull, Joins;
      var n, s := |spans| - 1, spans[|spans| - 1];
      var before := HullsOfGroups(spans[..n], logo);
      assert spans[..n] + [s] == spans;
      groups := AddToGroups(before, Merged(spans[..n], logo), s, logo);
    }
  }

  lemma AddToGroups(before: seq<seq<Break>>, out: seq<Break>, s: Break, logo: seq<bool>)
    returns (groups: seq<seq<Break>>)
    requires AllTimed(out) && Timed(s) && AreHulls(out, before)
    ensures Groups(groups, Flatten(before) + [s]) && AreHulls(Add(out, s, logo), groups)
  {
    hide Hull;
    var m := |before| - 1;
    if |out| > 0 && Joins(out[m], s, logo) {
      groups := before[..m] + [before[m] + [s]];
      hide Joins;
      HullGrows(before[m], s);
      assert groups[..m] == before[..m];
      assert Flatten(before[..m]) + (before[m] + [s]) == Flatten(before[..m]) + before[m] + [s];
    } else {
      groups := before + [[s]];
      assert groups[..|before|] == before;
      OneHull(s);
    }
  }

  lemma OneHull(s: Break)
    ensures Hull([s]) == s
  {
  }

  // ----- the breaks are apart, and what overlapped is one break -----

  predicate Apart(out: seq<Break>) {
    forall i, j :: 0 <= i < j < |out| ==> out[i].end <= out[j].start
  }

  lemma {:induction false} MergedApart(spans: seq<Break>, logo: seq<bool>)
    requires AllTimed(spans) && ByStart(spans)
    ensures var out := Merged(spans, logo);
            && Apart(out) && ByStart(out)
            && forall i :: 0 <= i < |out| ==> exists j :: 0 <= j < |spans| && spans[j].start == out[i].start
  {
    if spans != [] {
      var n := |spans| - 1;
      MergedApart(spans[..n], logo);
      var before := Merged(spans[..n], logo);
      forall i | 0 <= i < |before| ensures exists j :: 0 <= j < n && spans[j].start == before[i].start {
        var j :| 0 <= j < n && spans[..n][j].start == before[i].start;
        assert spans[j].start == before[i].start;
      }
      NewSpanApart(before, spans[n], logo);
    }
  }

  lemma NewSpanApart(out: seq<Break>, s: Break, logo: seq<bool>)
    requires AllTimed(out) && Timed(s) && Apart(out) && ByStart(out)
    requires forall i :: 0 <= i < |out| ==> out[i].start <= s.start
    ensures Apart(Add(out, s, logo)) && ByStart(Add(out, s, logo))
    ensures var r := Add(out, s, logo);
            forall i :: 0 <= i < |r| ==> r[i].start == s.start || (i < |out| && r[i].start == out[i].start)
  {
    hide LogoOnBetween;
    if |out| > 0 && s.start < out[|out| - 1].end {
      OverlapIsNoGap(out[|out| - 1], s, logo);
    }
  }

  lemma OverlapIsNoGap(last: Break, s: Break, logo: seq<bool>)
    requires Timed(last) && Timed(s) && s.start < last.end
    ensures Joins(last, s, logo)
  {
  }

  /** Every span lies in one break; two spans that overlap lie in the same one. */
  lemma {:induction false} OverlapsAreJoined(spans: seq<Break>, logo: seq<bool>, i: nat, j: nat)
    returns (a: nat, b: nat)
    requires AllTimed(spans) && ByStart(spans) && i < |spans| && j < |spans|
    ensures var out := Merged(spans, logo);
            && a < |out| && Within(spans[i], out[a]) && b < |out| && Within(spans[j], out[b])
            && (spans[i].start < spans[j].end && spans[j].start < spans[i].end ==> a == b)
  {
    a := InBreak(spans, logo, i);
    b := InBreak(spans, logo, j);
    MergedApart(spans, logo);
  }

  predicate Within(s: Break, b: Break) { b.start <= s.start && s.end <= b.end }

  lemma AddCovers(out: seq<Break>, s: Break, logo: seq<bool>)
    requires AllTimed(out) && Timed(s) && (out != [] ==> out[|out| - 1].start <= s.start)
    ensures var r := Add(out, s, logo);
            && |out| <= |r| && r != [] && Within(s, r[|r| - 1])
            && forall i :: 0 <= i < |out| ==> Within(out[i], r[i])
  {
    hide Joins;
  }

  lemma {:induction false} InBreak(spans: seq<Break>, logo: seq<bool>, i: nat) returns (a: nat)
    requires AllTimed(spans) && ByStart(spans) && i < |spans|
    ensures a < |Merged(spans, logo)| && Within(spans[i], Merged(spans, logo)[a])
  {
    hide Add;
    var n := |spans| - 1;
    var before := Merged(spans[..n], logo);
    MergedApart(spans[..n], logo);
    if before != [] {
      var k :| 0 <= k < n && spans[..n][k].start == before[|before| - 1].start;
      assert spans[k].start <= spans[n].start;
    }
    AddCovers(before, spans[n], logo);
    if i < n {
      a := InBreak(spans[..n], logo, i);
    } else {
      a := |Merged(spans, logo)| - 1;
    }
  }

  // ----- two breaks stay apart for a reason, so merging again changes nothing -----

  /** Joined, the two would be one break: close enough, not too long, and the show not back between them. */
  predicate NeighboursApart(out: seq<Break>, logo: seq<bool>)
    requires AllTimed(out)
  {
    forall i, j :: 0 <= i < j == i + 1 < |out| ==> !Joins(out[i], out[j], logo)
  }

  lemma LongerJoinsLess(last: Break, s: Break, end: real, logo: seq<bool>)
    requires Timed(last) && Timed(s) && s.end <= end && !Joins(last, s, logo)
    ensures !Joins(last, Break(s.start, end), logo)
  {
  }

  lemma {:induction false} ApartForAReason(spans: seq<Break>, logo: seq<bool>)
    requires AllTimed(spans)
    ensures NeighboursApart(Merged(spans, logo), logo)
  {
    if spans != [] {
      var n := |spans| - 1;
      ApartForAReason(spans[..n], logo);
      var before, s := Merged(spans[..n], logo), spans[n];
      var m := |before|;
      if m > 1 && Joins(before[m - 1], s, logo) {
        LongerJoinsLess(before[m - 2], before[m - 1], Max(before[m - 1].end, s.end), logo);
      }
      hide Joins;
      var out := Add(before, s, logo);
      forall i, j | 0 <= i < j == i + 1 < |out| ensures !Joins(out[i], out[j], logo) {
        if j < m - 1 {
          assert !Joins(before[i], before[j], logo);
        }
      }
    }
  }

  lemma {:induction false} NothingToJoin(out: seq<Break>, logo: seq<bool>)
    requires AllTimed(out) && NeighboursApart(out, logo)
    ensures Merged(out, logo) == out
  {
    hide Joins;
    if out != [] {
      var n := |out| - 1;
      NothingToJoin(out[..n], logo);
      assert out[..n] + [out[n]] == out;
      assert n > 0 ==> !Joins(out[n - 1], out[n], logo);
    }
  }

  /** The breaks are already merged: they come in order, and merging them again gives the same breaks. */
  lemma MergingTwiceIsOnce(spans: seq<Break>, logo: seq<bool>)
    requires AllTimed(spans) && ByStart(spans)
    ensures var out := Merged(spans, logo);
            ByStart(out) && Merged(out, logo) == out
  {
    MergedApart(spans, logo);
    ApartForAReason(spans, logo);
    NothingToJoin(Merged(spans, logo), logo);
  }

  // ----- spans that start together -----

  predicate StartsDiffer(spans: seq<Break>) {
    forall x, y :: x in spans && y in spans && x.start == y.start ==> x == y
  }

  /** When different spans start at different times, how the sort breaks ties cannot change the breaks. */
  lemma OrderOfTiesCannotMatter(a: seq<Break>, b: seq<Break>, logo: seq<bool>)
    requires AllTimed(a) && AllTimed(b) && ByStart(a) && ByStart(b)
    requires multiset(a) == multiset(b) && StartsDiffer(a)
    ensures Merged(a, logo) == Merged(b, logo)
  {
    Sorting.SortedUnique(a, b, (x: Break, y: Break) => x.start <= y.start);
  }

  /**
    A shorter and a longer span that start together split when only the shorter
    joins the break before them; or, the shorter being of no length and starting
    a break of its own, when the longer is too long to join that.
  */
  predicate TieSplits(out: seq<Break>, short: Break, long: Break, logo: seq<bool>)
    requires AllTimed(out) && Timed(short) && Timed(long)
  {
    var n := |out|;
    if n > 0 && Joins(out[n - 1], short, logo) then
      !Joins(out[n - 1], long, logo) && (short.start < short.end || out[n - 1].end < short.start)
    else short.start == short.end && long.end - long.start > LONGEST_BREAK
  }

  function AddAll(out: seq<Break>, spans: seq<Break>, logo: seq<bool>): (r: seq<Break>)
    requires AllTimed(out) && AllTimed(spans)
    ensures AllTimed(r)
    decreases spans
  {
    if spans == [] then out else AddAll(Add(out, spans[0], logo), spans[1..], logo)
  }

  lemma {:induction false} MergedThen(p: seq<Break>, spans: seq<Break>, logo: seq<bool>)
    requires AllTimed(p) && AllTimed(spans)
    ensures AllTimed(p + spans) && Merged(p + spans, logo) == AddAll(Merged(p, logo), spans, logo)
    decreases spans
  {
    hide Add;
    if spans == [] {
      assert p + spans == p;
    } else {
      var q := p + [spans[0]];
      assert q[..|p|] == p && q + spans[1..] == p + spans;
      MergedThen(q, spans[1..], logo);
    }
  }

  /** What more spans leave as it is: every break but the last, which keeps its start and only grows. */
  lemma {:induction false} EarlierStay(out: seq<Break>, spans: seq<Break>, logo: seq<bool>)
    requires AllTimed(out) && AllTimed(spans) && out != []
    ensures var r, n := AddAll(out, spans, logo), |out| - 1;
            |r| > n && r[..n] == out[..n] && r[n].start == out[n].start && r[n].end >= out[n].end
    decreases spans
  {
    if spans != [] {
      hide Joins;
      var next := Add(out, spans[0], logo);
      EarlierStay(next, spans[1..], logo);
      var r, n := AddAll(next, spans[1..], logo), |out| - 1;
      assert next[..n] == out[..n] && next[n].start == out[n].start && next[n].end >= out[n].end;
      assert r[..n] == r[..|next| - 1][..n];
    }
  }

  function Either(out: seq<Break>, a: Break, b: Break, logo: seq<bool>): (r: seq<Break>)
    requires AllTimed(out) && Timed(a) && Timed(b)
    ensures AllTimed(r)
  {
    Add(Add(out, a, logo), b, logo)
  }

  lemma AddToLast(front: seq<Break>, last: Break, s: Break, logo: seq<bool>)
    requires AllTimed(front) && Timed(last) && Timed(s)
    ensures Add(front + [last], s, logo) ==
      if Joins(last, s, logo) then front + [Break(last.start, Max(last.end, s.end))] else front + [last, s]
  {
    hide Joins;
    assert (front + [last])[..|front|] == front && front + [last] + [s] == front + [last, s];
  }

  lemma NoGapNoLogo(logo: seq<bool>, from: real, to: real)
    requires 0.0 <= from && 0.0 <= to <= from
    ensures !LogoOnBetween(logo, from, to)
  {
  }

  /** Of two that start together the longer always takes the shorter in; the other way round the length decides. */
  lemma TogetherJoins(short: Break, long: Break, logo: seq<bool>)
    requires Timed(short) && Timed(long) && short.start == long.start && short.end < long.end
    ensures Joins(long, short, logo)
    ensures Joins(short, long, logo) <==> short.start < short.end || long.end - long.start <= LONGEST_BREAK
  {
    NoGapNoLogo(logo, long.end, short.start);
    NoGapNoLogo(logo, short.end, long.start);
  }

  /** Joined to nothing before them, the longer takes the shorter in whichever comes first, unless they split. */
  lemma TieAlone(out: seq<Break>, short: Break, long: Break, logo: seq<bool>)
    requires AllTimed(out) && Timed(short) && Timed(long) && short.start == long.start && short.end < long.end
    requires out == [] || !Joins(out[|out| - 1], short, logo)
    ensures Either(out, long, short, logo) == out + [long]
    ensures Either(out, short, long, logo) ==
      if TieSplits(out, short, long, logo) then out + [short, long] else out + [long]
  {
    if out != [] {
      LongerJoinsLess(out[|out| - 1], short, long.end, logo);
      assert Break(short.start, long.end) == long;
    }
    TogetherJoins(short, long, logo);
    hide Joins;
    assert Add(out, long, logo) == out + [long] && Add(out, short, logo) == out + [short];
    hide Add;
    AddToLast(out, long, short, logo);
    AddToLast(out, short, long, logo);
  }

  /** Only the shorter joining the break before them: which comes first decides what that break becomes. */
  lemma TieAtBreak(front: seq<Break>, last: Break, short: Break, long: Break, logo: seq<bool>)
    requires AllTimed(front) && Timed(last) && Timed(short) && Timed(long)
    requires short.start == long.start && short.end < long.end
    requires Joins(last, short, logo) && !Joins(last, long, logo)
    ensures last.end <= long.start
    ensures Either(front + [last], long, short, logo) == front + [last, long]
    ensures Either(front + [last], short, long, logo) ==
      if short.start < short.end then front + [Break(last.start, long.end)]
      else front + [Break(last.start, long.start), long]
  {
    var joined := Break(last.start, short.end);
    JoinedThenLong(last, short, long, logo);
    TogetherJoins(short, long, logo);
    hide Joins, Add;
    AddToLast(front, last, long, logo);
    AddToLast(front + [last], long, short, logo);
    assert front + [last] + [long] == front + [last, long];
    AddToLast(front, last, short, logo);
    AddToLast(front, joined, long, logo);
  }

  lemma JoinedThenLong(last: Break, short: Break, long: Break, logo: seq<bool>)
    requires Timed(last) && Timed(short) && Timed(long) && short.start == long.start && short.end < long.end
    requires Joins(last, short, logo) && !Joins(last, long, logo)
    ensures last.end <= long.start
    ensures Joins(Break(last.start, short.end), long, logo) <==> short.start < short.end
  {
    NoGapNoLogo(logo, short.end, long.start);
  }

  /** Both joining the break before them, in either order. */
  lemma TieJoins(front: seq<Break>, last: Break, short: Break, long: Break, logo: seq<bool>)
    requires AllTimed(front) && Timed(last) && Timed(short) && Timed(long)
    requires short.start == long.start && short.end < long.end
    requires Joins(last, short, logo) && Joins(last, long, logo)
    ensures Either(front + [last], short, long, logo) == Either(front + [last], long, short, logo)
  {
    var a := Break(last.start, Max(last.end, short.end));
    var b := Break(last.start, Max(last.end, long.end));
    NoGapNoLogo(logo, a.end, long.start);
    NoGapNoLogo(logo, b.end, short.start);
    assert Joins(a, long, logo) && Joins(b, short, logo);
    hide Joins, Add;
    AddToLast(front, last, short, logo);
    AddToLast(front, last, long, logo);
    AddToLast(front, a, long, logo);
    AddToLast(front, b, short, logo);
  }

  /** After any more spans the two orders give different breaks exactly when the tie splits. */
  lemma TieMattersExactlyWhen(out: seq<Break>, short: Break, long: Break, rest: seq<Break>, logo: seq<bool>)
    requires AllTimed(out) && AllTimed(rest) && Timed(short) && Timed(long)
    requires short.start == long.start && short.end < long.end
    ensures AddAll(Either(out, short, long, logo), rest, logo) != AddAll(Either(out, long, short, logo), rest, logo)
      <==> TieSplits(out, short, long, logo)
  {
    hide Either, LogoOnBetween, AddAll;
    var n := |out| - 1;
    if out == [] || !Joins(out[n], short, logo) {
      TieAlone(out, short, long, logo);
      if TieSplits(out, short, long, logo) {
        EarlierStay(out + [short, long], rest, logo);
        EarlierStay(out + [long], rest, logo);
        Differs(AddAll(out + [short, long], rest, logo), AddAll(out + [long], rest, logo), out + [short], |out|);
      }
    } else {
      var front, last := out[..n], out[n];
      assert out == front + [last];
      if Joins(last, long, logo) {
        TieJoins(front, last, short, long, logo);
      } else {
        TieAtBreak(front, last, short, long, logo);
        EarlierStay(front + [last, long], rest, logo);
        if short.start < short.end {
          var hull := Break(last.start, long.end);
          EarlierStay(front + [hull], rest, logo);
          Differs(AddAll(front + [last, long], rest, logo), AddAll(front + [hull], rest, logo), front + [last], n);
        } else {
          var grown := Break(last.start, long.start);
          EarlierStay(front + [grown, long], rest, logo);
          if last.end < long.start {
            var a, b := AddAll(front + [last, long], rest, logo), AddAll(front + [grown, long], rest, logo);
            assert (front + [last, long])[..n + 1] == front + [last];
            assert b[n] == b[..n + 1][n] == (front + [grown, long])[..n + 1][n] == grown;
            Differs(a, b, front + [last], n);
          }
        }
      }
    }
  }

  /** a keeps the front whose last break ends before b's break in its place. */
  lemma Differs(a: seq<Break>, b: seq<Break>, front: seq<Break>, k: nat)
    requires |front| == k + 1 && |a| > k && |b| > k && a[..k + 1] == front && b[k].end > front[k].end
    ensures a != b
  {
    assert a[k] == a[..k + 1][k];
  }

  // ----- every order the sort may leave -----

  ghost predicate Arrangement(x: seq<Break>, spans: seq<Break>) {
    multiset(x) == multiset(spans) && ByStart(x)
  }

  lemma ArrangedTimed(x: seq<Break>, spans: seq<Break>)
    requires AllTimed(spans) && multiset(x) == multiset(spans)
    ensures AllTimed(x)
  {
    forall i | 0 <= i < |x| ensures Timed(x[i]) {
      assert x[i] in multiset(x) && x[i] in multiset(spans);
    }
  }

  /** In some order by start, the tie of short and long that comes after p splits. */
  ghost predicate SplitsAt(spans: seq<Break>, p: seq<Break>, short: Break, long: Break, rest: seq<Break>, logo: seq<bool>)
    requires AllTimed(spans)
  {
    && Arrangement(p + [short, long] + rest, spans) && short.start == long.start && short.end < long.end
    && AllTimed(p) && Timed(short) && Timed(long) && TieSplits(Merged(p, logo), short, long, logo)
  }

  ghost predicate SomeTieSplits(spans: seq<Break>, logo: seq<bool>)
    requires AllTimed(spans)
  {
    exists p, short, long, rest :: SplitsAt(spans, p, short, long, rest, logo)
  }

  lemma PairMerged(p: seq<Break>, a: Break, b: Break, rest: seq<Break>, logo: seq<bool>)
    requires AllTimed(p + [a, b] + rest)
    ensures AllTimed(p) && AllTimed(rest) && Timed(a) && Timed(b)
    ensures Merged(p + [a, b] + rest, logo) == AddAll(Either(Merged(p, logo), a, b, logo), rest, logo)
  {
    var x := p + [a, b] + rest;
    assert x[|p|] == a && x[|p| + 1] == b;
    forall i | 0 <= i < |p| ensures Timed(p[i]) { assert x[i] == p[i]; }
    forall i | 0 <= i < |rest| ensures Timed(rest[i]) { assert x[|p| + 2 + i] == rest[i]; }
    MergedThen(p + [a, b], rest, logo);
    MergedThen(p, [a, b], logo);
    assert [a, b][1..] == [b] && [b][1..] == [];
    hide Add;
    assert AddAll(Merged(p, logo), [a, b], logo) == AddAll(Add(Merged(p, logo), a, logo), [b], logo);
  }

  lemma SwappedArrangement(spans: seq<Break>, p: seq<Break>, a: Break, b: Break, rest: seq<Break>)
    requires Arrangement(p + [a, b] + rest, spans) && a.start == b.start
    ensures Arrangement(p + [b, a] + rest, spans)
  {
    var x, y := p + [a, b] + rest, p + [b, a] + rest;
    forall i | 0 <= i < |y| ensures y[i].start == x[i].start {
    }
    assert multiset(y) == multiset(p) + multiset{a, b} + multiset(rest) == multiset(x);
  }

  lemma SwapKeepsBreaks(spans: seq<Break>, p: seq<Break>, a: Break, b: Break, rest: seq<Break>, logo: seq<bool>)
    requires AllTimed(spans) && !SomeTieSplits(spans, logo)
    requires Arrangement(p + [a, b] + rest, spans) && a.start == b.start
    ensures AllTimed(p + [a, b] + rest) && AllTimed(p + [b, a] + rest) && Arrangement(p + [b, a] + rest, spans)
    ensures Merged(p + [a, b] + rest, logo) == Merged(p + [b, a] + rest, logo)
  {
    hide Merged, Arrangement, Either, AddAll, TieSplits;
    SwappedArrangement(spans, p, a, b, rest);
    assert multiset(p + [a, b] + rest) == multiset(spans) == multiset(p + [b, a] + rest) by { ArrangedSame(spans, p, a, b, rest); }
    ArrangedTimed(p + [a, b] + rest, spans);
    ArrangedTimed(p + [b, a] + rest, spans);
    PairMerged(p, a, b, rest, logo);
    PairMerged(p, b, a, rest, logo);
    if a.end < b.end {
      TieMattersExactlyWhen(Merged(p, logo), a, b, rest, logo);
      assert !SplitsAt(spans, p, a, b, rest, logo);
    } else if b.end < a.end {
      TieMattersExactlyWhen(Merged(p, logo), b, a, rest, logo);
      assert !SplitsAt(spans, p, b, a, rest, logo);
    } else {
      assert a == b;
    }
  }

  lemma ArrangedSame(spans: seq<Break>, p: seq<Break>, a: Break, b: Break, rest: seq<Break>)
    requires Arrangement(p + [a, b] + rest, spans) && Arrangement(p + [b, a] + rest, spans)
    ensures multiset(p + [a, b] + rest) == multiset(spans) == multiset(p + [b, a] + rest)
  {
  }

  /** Span i of u, which starts with all before it, may as well come first. */
  lemma {:induction false} ToFront(spans: seq<Break>, p: seq<Break>, u: seq<Break>, i: nat, logo: seq<bool>)
    requires AllTimed(spans) && !SomeTieSplits(spans, logo) && Arrangement(p + u, spans)
    requires i < |u| && forall j :: 0 <= j < i ==> u[j].start == u[i].start
    ensures var first := [u[i]] + u[..i] + u[i + 1..];
            && Arrangement(p + first, spans) && AllTimed(p + u) && AllTimed(p + first)
            && Merged(p + first, logo) == Merged(p + u, logo)
    decreases i
  {
    hide Merged, SomeTieSplits, Arrangement, AllTimed;
    ArrangementIs(p + u, spans);
    ArrangedTimed(p + u, spans);
    if i == 0 {
      assert [u[0]] + u[..0] + u[1..] == u;
    } else {
      var q, rest := p + u[..i - 1], u[i + 1..];
      var w := SwappedPlaces(p, u, i);
      SwapKeepsBreaks(spans, q, u[i - 1], u[i], rest, logo);
      ToFront(spans, p, w, i - 1, logo);
    }
  }

  lemma ArrangementIs(x: seq<Break>, spans: seq<Break>)
    requires Arrangement(x, spans)
    ensures multiset(x) == multiset(spans) && ByStart(x)
  {
  }

  lemma SwappedPlaces(p: seq<Break>, u: seq<Break>, i: nat) returns (w: seq<Break>)
    requires 0 < i < |u|
    ensures |w| == |u| && w[i - 1] == u[i] && forall j :: 0 <= j < i - 1 ==> w[j] == u[j]
    ensures p + u == (p + u[..i - 1]) + [u[i - 1], u[i]] + u[i + 1..]
    ensures p + w == (p + u[..i - 1]) + [u[i], u[i - 1]] + u[i + 1..]
    ensures [w[i - 1]] + w[..i - 1] + w[i - 1 + 1..] == [u[i]] + u[..i] + u[i + 1..]
  {
    w := u[i - 1 := u[i]][i := u[i - 1]];
  }

  lemma {:induction false} SameBreaks(spans: seq<Break>, p: seq<Break>, u: seq<Break>, v: seq<Break>, logo: seq<bool>)
    requires AllTimed(spans) && !SomeTieSplits(spans, logo)
    requires Arrangement(p + u, spans) && Arrangement(p + v, spans) && multiset(u) == multiset(v)
    ensures AllTimed(p + u) && AllTimed(p + v) && Merged(p + u, logo) == Merged(p + v, logo)
    decreases |u|
  {
    hide Merged, SomeTieSplits, Arrangement, AllTimed;
    ArrangementIs(p + u, spans);
    ArrangementIs(p + v, spans);
    ArrangedTimed(p + u, spans);
    ArrangedTimed(p + v, spans);
    if u == [] || v == [] {
      assert |multiset(u)| == |u| && |multiset(v)| == |v|;
      assert u == v;
    } else {
      var i := FirstIn(p, u, v);
      ToFront(spans, p, u, i, logo);
      Without(u, v, i);
      Regroup(p, u[i], u[..i] + u[i + 1..]);
      Regroup(p, v[0], v[1..]);
      assert [v[0]] + v[1..] == v && [u[i]] + u[..i] + u[i + 1..] == [u[i]] + (u[..i] + u[i + 1..]);
      SameBreaks(spans, p + [u[i]], u[..i] + u[i + 1..], v[1..], logo);
    }
  }

  lemma Without(u: seq<Break>, v: seq<Break>, i: nat)
    requires i < |u| && v != [] && u[i] == v[0] && multiset(u) == multiset(v)
    ensures multiset(u[..i] + u[i + 1..]) == multiset(v[1..])
  {
    OneOut(u[..i], u[i], u[i + 1..]);
    OneOut([], v[0], v[1..]);
    CutAt(u, i);
    CutAt(v, 0);
    assert v[..0] == [];
    assert [] + v[1..] == v[1..];
  }

  lemma CutAt(u: seq<Break>, i: nat)
    requires i < |u|
    ensures u[..i] + [u[i]] + u[i + 1..] == u
  {
  }

  lemma OneOut(a: seq<Break>, b: Break, c: seq<Break>)
    ensures multiset(a + c) == multiset(a + [b] + c) - multiset{b}
  {
    assert multiset(a + [b] + c) == multiset(a) + multiset{b} + multiset(c);
  }

  lemma Regroup(p: seq<Break>, b: Break, rest: seq<Break>)
    ensures p + ([b] + rest) == (p + [b]) + rest
  {
  }

  /** The first span of one order is in the other with nothing that starts sooner before it. */
  lemma FirstIn(p: seq<Break>, u: seq<Break>, v: seq<Break>) returns (i: nat)
    requires ByStart(p + u) && ByStart(p + v) && multiset(u) == multiset(v) && u != [] && v != []
    ensures i < |u| && u[i] == v[0] && forall j :: 0 <= j < i ==> u[j].start == u[i].start
  {
    assert v[0] in multiset(u);
    i :| 0 <= i < |u| && u[i] == v[0];
    forall j | 0 <= j < i ensures u[j].start == u[i].start {
      assert (p + u)[|p| + j].start <= (p + u)[|p| + i].start;
      assert u[j] in multiset(v);
      var k :| 0 <= k < |v| && v[k] == u[j];
      assert (p + v)[|p|] == v[0] && (p + v)[|p| + k] == v[k];
    }
  }

  lemma SplitMatters(spans: seq<Break>, p: seq<Break>, short: Break, long: Break, rest: seq<Break>, logo: seq<bool>)
    returns (x: seq<Break>, y: seq<Break>)
    requires AllTimed(spans) && SplitsAt(spans, p, short, long, rest, logo)
    ensures Arrangement(x, spans) && Arrangement(y, spans) && AllTimed(x) && AllTimed(y)
    ensures Merged(x, logo) != Merged(y, logo)
  {
    hide Merged, Arrangement, AllTimed, Either, AddAll;
    x, y := p + [short, long] + rest, p + [long, short] + rest;
    SwappedArrangement(spans, p, short, long, rest);
    ArrangementIs(x, spans);
    ArrangementIs(y, spans);
    ArrangedTimed(x, spans);
    ArrangedTimed(y, spans);
    PairMerged(p, short, long, rest, logo);
    PairMerged(p, long, short, rest, logo);
    TieMattersExactlyWhen(Merged(p, logo), short, long, rest, logo);
  }

  /** Every order by start that the sort may leave gives the same breaks, exactly when no tie in any of them splits. */
  lemma OrderMattersExactlyWhen(spans: seq<Break>, logo: seq<bool>)
    requires AllTimed(spans)
    ensures (forall x, y :: Arrangement(x, spans) && Arrangement(y, spans) && AllTimed(x) && AllTimed(y) ==>
              Merged(x, logo) == Merged(y, logo)) <==> !SomeTieSplits(spans, logo)
  {
    hide Merged, Arrangement, AllTimed;
    if SomeTieSplits(spans, logo) {
      var p, short, long, rest :| SplitsAt(spans, p, short, long, rest, logo);
      var x, y := SplitMatters(spans, p, short, long, rest, logo);
    } else {
      hide SomeTieSplits;
      forall x, y | Arrangement(x, spans) && Arrangement(y, spans) && AllTimed(x) && AllTimed(y)
        ensures Merged(x, logo) == Merged(y, logo)
      {
        ArrangementIs(x, spans);
        ArrangementIs(y, spans);
        assert [] + x == x && [] + y == y;
        SameBreaks(spans, [], x, y, logo);
      }
    }
  }

  const FIRST := Break(0.0, 10.0)
  const SHORT := Break(45.0, 100.0)
  const LONG := Break(45.0, 250.0)

  /** Of two spans that start together the shorter, sorted first, joins the break before it and the longer with it. */
  lemma ShortFirst()
    ensures AllTimed([FIRST, SHORT, LONG]) && Merged([FIRST, SHORT, LONG], []) == [Break(0.0, 250.0)]
  {
    Three(FIRST, SHORT, LONG);
    assert Add([FIRST], SHORT, []) == [Break(0.0, 100.0)];
  }

  /** The longer, sorted first, is too long to join, and keeps the shorter with it. */
  lemma LongFirst()
    ensures AllTimed([FIRST, LONG, SHORT]) && Merged([FIRST, LONG, SHORT], []) == [FIRST, LONG]
  {
    Three(FIRST, LONG, SHORT);
    assert Add([FIRST], LONG, []) == [FIRST, LONG];
  }

  /** How the sort breaks ties can change the breaks. */
  lemma TiesCanMatter() returns (a: seq<Break>, b: seq<Break>)
    ensures AllTimed(a) && AllTimed(b) && ByStart(a) && ByStart(b) && multiset(a) == multiset(b)
    ensures Merged(a, []) != Merged(b, [])
  {
    hide Merged;
    a, b := [FIRST, SHORT, LONG], [FIRST, LONG, SHORT];
    ShortFirst();
    LongFirst();
    assert |Merged(a, [])| != |Merged(b, [])|;
  }

  lemma Three(x: Break, y: Break, z: Break)
    requires Timed(x) && Timed(y) && Timed(z)
    ensures Merged([x, y, z], []) == Add(Add([x], y, []), z, [])
  {
    hide Joins;
    assert [x][..0] == [] && [x, y][..1] == [x] && [x, y, z][..2] == [x, y];
    assert Merged([x], []) == [x];
    assert Merged([x, y], []) == Add([x], y, []);
  }
}
