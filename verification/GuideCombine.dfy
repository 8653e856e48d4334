/** Putting listing feeds together without any two airings of a channel overlapping. */
module GuideCombine {
  import opened Sorting

  /** detail counts the fields filled in; key stands for the rest of the listing. */
  datatype Airing = Airing(channel: int, start: int, end: int, detail: nat, key: int)

  predicate StartLe(a: Airing, b: Airing) { a.start <= b.start }

  predicate Positive(a: Airing) { a.start < a.end }

  predicate Overlap(a: Airing, b: Airing) { a.start < b.end && b.start < a.end }

  ghost predicate OverlapsAny(s: seq<Airing>, a: Airing) {
    exists i :: 0 <= i < |s| && Overlap(s[i], a)
  }

  /** In time order, of positive length, and pairwise apart. */
  ghost predicate Disjoint(s: seq<Airing>) {
    && (forall i :: 0 <= i < |s| ==> Positive(s[i]))
    && (forall i, j :: 0 <= i < j < |s| ==> s[i].end <= s[j].start)
  }

  // ----- the airings of a feed that fit -----

  /** The greedy pass: an airing is kept when it has a length and overlaps neither the last one kept nor any taken. */
  ghost function Greedy(list: seq<Airing>, taken: seq<Airing>): (out: seq<Airing>) {
    if list == [] then []
    else
      var before, row := Greedy(list[..|list| - 1], taken), list[|list| - 1];
      if !Positive(row) || (before != [] && before[|before| - 1].end > row.start) || OverlapsAny(taken, row)
      then before
      else before + [row]
  }

  /** sort.Search: the first airing that ends after t. */
  method FirstEndingAfter(taken: seq<Airing>, t: int) returns (i: nat)
    requires Disjoint(taken)
    ensures i <= |taken|
    ensures forall k :: 0 <= k < i ==> taken[k].end <= t
    ensures forall k :: i <= k < |taken| ==> taken[k].end > t
  {
    i := 0;
    var j := |taken|;
    while i < j
      invariant 0 <= i <= j <= |taken|
      invariant forall k :: 0 <= k < i ==> taken[k].end <= t
      invariant forall k :: j <= k < |taken| ==> taken[k].end > t
    {
      var h := (i + j) / 2;
      if taken[h].end > t {
        forall k | h <= k < |taken| ensures taken[k].end > t {
          assert k > h ==> taken[h].end <= taken[k].start < taken[k].end;
        }
        j := h;
      } else {
        forall k | 0 <= k <= h ensures taken[k].end <= t {
          assert k < h ==> taken[k].end <= taken[h].start < taken[h].end;
        }
        i := h + 1;
      }
    }
  }

  method NoOverlaps(list: seq<Airing>, taken: seq<Airing>) returns (out: seq<Airing>)
    requires Disjoint(taken)
    ensures out == Greedy(list, taken)
  {
    out := [];
    for k := 0 to |list|
      invariant out == Greedy(list[..k], taken)
    {
      var row := list[k];
      assert list[..k + 1][..k] == list[..k];
      if row.end <= row.start {
        continue;
      }
      var n := |out|;
      if n > 0 && out[n - 1].end > row.start {
        continue;
      }
      var i := FirstEndingAfter(taken, row.start);
      if i < |taken| && taken[i].start < row.end {
        assert Overlap(taken[i], row);
        continue;
      }
      assert !OverlapsAny(taken, row) by {
        forall j | 0 <= j < |taken| ensures !Overlap(taken[j], row) {
          assert j > i ==> taken[i].end <= taken[j].start && taken[i].start < taken[i].end;
        }
      }
      out := out + [row];
    }
    assert list[..|list|] == list;
  }

  lemma {:induction false} GreedyIsDisjoint(list: seq<Airing>, taken: seq<Airing>)
    ensures Disjoint(Greedy(list, taken))
    ensures forall a :: a in Greedy(list, taken) ==> a in list && !OverlapsAny(taken, a)
    ensures multiset(Greedy(list, taken)) <= multiset(list)
  {
    if list != [] {
      var front, row := list[..|list| - 1], list[|list| - 1];
      GreedyIsDisjoint(front, taken);
      assert list == front + [row];
      var before := Greedy(front, taken);
      if Greedy(list, taken) == before + [row] {
        OneAfter(before, row);
        assert multiset(list) == multiset(front) + multiset{row};
      }
    }
  }

  lemma OneAfter(before: seq<Airing>, row: Airing)
    requires Disjoint(before) && Positive(row) && (before != [] ==> before[|before| - 1].end <= row.start)
    ensures Disjoint(before + [row]) && multiset(before + [row]) == multiset(before) + multiset{row}
  {
    forall i | 0 <= i < |before| ensures before[i].end <= row.start {
      assert i < |before| - 1 ==> before[i].end <= before[|before| - 1].start < before[|before| - 1].end;
    }
  }

  ghost predicate Covered(s: seq<Airing>, a: Airing) {
    a in s || OverlapsAny(s, a)
  }

  /** The greedy pass leaves out nothing that would still fit. */
  lemma {:induction false} GreedyIsMaximal(list: seq<Airing>, taken: seq<Airing>)
    requires SortedBy(list, StartLe)
    ensures forall a :: a in list && Positive(a) ==> Covered(Greedy(list, taken), a) || OverlapsAny(taken, a)
  {
    if list != [] {
      var n := |list| - 1;
      var before, out, row := Greedy(list[..n], taken), Greedy(list, taken), list[n];
      assert SortedBy(list[..n], StartLe);
      GreedyIsMaximal(list[..n], taken);
      GreedyIsDisjoint(list[..n], taken);
      assert list == list[..n] + [row];
      CoveredMore(before, [row]);
      assert before + [] == before;
      if before != [] && before[|before| - 1].end > row.start && Positive(row) {
        var last := before[|before| - 1];
        assert last in list[..n];
        var k :| 0 <= k < n && list[k] == last;
        assert StartLe(list[k], list[n]);
        assert Overlap(last, row);
      }
    }
  }

  lemma CoveredMore(s: seq<Airing>, more: seq<Airing>)
    ensures forall a :: Covered(s, a) ==> Covered(s + more, a)
    ensures forall a :: Covered(s, a) ==> Covered(more + s, a)
  {
    forall a | Covered(s, a) ensures Covered(s + more, a) && Covered(more + s, a) {
      if a !in s {
        var i :| 0 <= i < |s| && Overlap(s[i], a);
        assert (s + more)[i] == s[i] && (more + s)[|more| + i] == s[i];
      }
    }
  }

  // ----- merging -----

  ghost predicate Separate(a: seq<Airing>, b: seq<Airing>) {
    forall i, j :: 0 <= i < |a| && 0 <= j < |b| ==> !Overlap(a[i], b[j])
  }

  /** Everything in out ends before everything in s starts. */
  ghost predicate Before(out: seq<Airing>, s: seq<Airing>) {
    forall i, j :: 0 <= i < |out| && 0 <= j < |s| ==> out[i].end <= s[j].start
  }

  /** What the merge keeps: three disjoint pieces, the first ahead of the other two. */
  ghost predicate Merging(out: seq<Airing>, a: seq<Airing>, b: seq<Airing>) {
    && Disjoint(out) && Disjoint(a) && Disjoint(b) && Separate(a, b)
    && Before(out, a) && Before(out, b)
  }

  lemma MoveHead(out: seq<Airing>, a: seq<Airing>, b: seq<Airing>)
    requires Merging(out, a, b) && a != [] && b != []
    ensures b[0].start < a[0].start ==> Merging(out + [b[0]], a, b[1..])
    ensures b[0].start >= a[0].start ==> Merging(out + [a[0]], a[1..], b)
  {
    HeadsApart(a, b);
  }

  lemma MoveRest(out: seq<Airing>, a: seq<Airing>, b: seq<Airing>)
    requires Merging(out, a, b) && (a == [] || b == [])
    ensures Disjoint(out + a + b)
  {
    assert a == [] ==> out + a + b == out + b;
    assert b == [] ==> out + a + b == out + a;
  }

  method MergeByStart(a0: seq<Airing>, b0: seq<Airing>) returns (out: seq<Airing>)
    requires Disjoint(a0) && Disjoint(b0) && Separate(a0, b0)
    ensures Disjoint(out)
    ensures multiset(out) == multiset(a0) + multiset(b0)
  {
    out := [];
    var a, b := a0, b0;
    assert Merging(out, a, b);
    hide Merging, Disjoint, Separate;
    while |a| > 0 && |b| > 0
      invariant Merging(out, a, b)
      invariant multiset(out) + multiset(a) + multiset(b) == multiset(a0) + multiset(b0)
      decreases |a| + |b|
    {
      MoveHead(out, a, b);
      if b[0].start < a[0].start {
        assert b == [b[0]] + b[1..];
        out := out + [b[0]];
        b := b[1..];
      } else {
        assert a == [a[0]] + a[1..];
        out := out + [a[0]];
        a := a[1..];
      }
    }
    MoveRest(out, a, b);
    out := out + a + b;
  }

  /** The head that starts first ends before anything left starts. */
  lemma HeadsApart(a: seq<Airing>, b: seq<Airing>)
    requires Disjoint(a) && Disjoint(b) && Separate(a, b) && a != [] && b != []
    ensures b[0].start < a[0].start ==> Before([b[0]], a) && Before([b[0]], b[1..])
    ensures b[0].start >= a[0].start ==> Before([a[0]], b) && Before([a[0]], a[1..])
    ensures Disjoint(a[1..]) && Disjoint(b[1..]) && Separate(a[1..], b) && Separate(a, b[1..])
  {
    assert !Overlap(a[0], b[0]);
    forall j | 0 <= j < |a| ensures b[0].start < a[0].start ==> b[0].end <= a[j].start {
      assert j > 0 ==> a[0].end <= a[j].start;
    }
    forall j | 0 <= j < |b| ensures b[0].start >= a[0].start ==> a[0].end <= b[j].start {
      assert j > 0 ==> b[0].end <= b[j].start;
    }
  }

  // ----- one channel -----

  ghost function Bag(lists: seq<seq<Airing>>): multiset<Airing> {
    if lists == [] then multiset{} else Bag(lists[..|lists| - 1]) + multiset(lists[|lists| - 1])
  }

  /** The stretch every feed that lists the channel covers, up to feed n. */
  ghost function SharedFrom(lists: seq<seq<Airing>>, n: nat): int
    requires n <= |lists| && exists i :: 0 <= i < n && lists[i] != []
  {
    if lists[n - 1] == [] then SharedFrom(lists, n - 1)
    else if forall i :: 0 <= i < n - 1 ==> lists[i] == [] then lists[n - 1][0].start
    else
      var before := SharedFrom(lists, n - 1);
      if lists[n - 1][0].start > before then lists[n - 1][0].start else before
  }

  ghost function SharedTo(lists: seq<seq<Airing>>, n: nat): int
    requires n <= |lists| && exists i :: 0 <= i < n && lists[i] != []
  {
    if lists[n - 1] == [] then SharedTo(lists, n - 1)
    else
      var end := lists[n - 1][|lists[n - 1]| - 1].end;
      if forall i :: 0 <= i < n - 1 ==> lists[i] == [] then end
      else
        var before := SharedTo(lists, n - 1);
        if end < before then end else before
  }

  function Score(list: seq<Airing>, from: int, to: int): nat {
    if list == [] then 0
    else
      var row := list[|list| - 1];
      Score(list[..|list| - 1], from, to) + if from <= row.start < to then row.detail else 0
  }

  ghost predicate First(lists: seq<seq<Airing>>, i: nat) {
    i < |lists| && lists[i] != [] && forall j :: 0 <= j < i ==> lists[j] == []
  }

  /** The feed with the most detail in the shared stretch; the earlier one on a tie or without such a stretch. */
  ghost predicate Richest(lists: seq<seq<Airing>>, base: nat) {
    if forall i :: 0 <= i < |lists| ==> lists[i] == [] then base == 0
    else
      var from, to := SharedFrom(lists, |lists|), SharedTo(lists, |lists|);
      if to <= from then First(lists, base)
      else
        && base < |lists| && lists[base] != []
        && (forall j :: 0 <= j < |lists| && lists[j] != [] ==> Score(lists[j], from, to) <= Score(lists[base], from, to))
        && (forall j :: 0 <= j < base && lists[j] != [] ==> Score(lists[j], from, to) < Score(lists[base], from, to))
  }

  method FeedScore(list: seq<Airing>, from: int, to: int) returns (score: nat)
    ensures score == Score(list, from, to)
  {
    score := 0;
    for k := 0 to |list|
      invariant score == Score(list[..k], from, to)
    {
      assert list[..k + 1][..k] == list[..k];
      if list[k].start >= from && list[k].start < to {
        score := score + list[k].detail;
      }
    }
    assert list[..|list|] == list;
  }

  method RichestFeed(lists: seq<seq<Airing>>) returns (base: nat)
    ensures Richest(lists, base)
  {
    var from, to, first := 0, 0, -1;
    for i := 0 to |lists|
      invariant first == -1 <==> forall j :: 0 <= j < i ==> lists[j] == []
      invariant -1 <= first < i
      invariant first >= 0 ==> First(lists, first) && from == SharedFrom(lists, i) && to == SharedTo(lists, i)
    {
      var list := lists[i];
      if |list| == 0 {
        continue;
      }
      if first < 0 {
        first, from, to := i, list[0].start, list[|list| - 1].end;
        continue;
      }
      if list[0].start > from {
        from := list[0].start;
      }
      var end := list[|list| - 1].end;
      if end < to {
        to := end;
      }
    }
    if first < 0 || to <= from {
      return if first > 0 then first else 0;
    }
    base := first;
    var bestScore: int := -1;
    for i := 0 to |lists|
      invariant base < |lists| && lists[base] != []
      invariant bestScore == -1 <==> forall j :: 0 <= j < i ==> lists[j] == []
      invariant bestScore >= 0 ==> base < i && bestScore == Score(lists[base], from, to)
      invariant forall j :: 0 <= j < i && lists[j] != [] ==> Score(lists[j], from, to) <= bestScore
      invariant forall j :: 0 <= j < i && j < base && lists[j] != [] ==> Score(lists[j], from, to) < bestScore
    {
      var list := lists[i];
      if |list| == 0 {
        continue;
      }
      var score := FeedScore(list, from, to);
      if score > bestScore {
        base, bestScore := i, score;
      }
    }
  }

  ghost predicate AllSorted(lists: seq<seq<Airing>>) {
    forall i :: 0 <= i < |lists| ==> SortedBy(lists[i], StartLe)
  }

  /** Every airing of a list that has a length is on the schedule or overlaps it. */
  ghost predicate Leaves(chosen: seq<Airing>, list: seq<Airing>) {
    forall a :: a in list && Positive(a) ==> Covered(chosen, a)
  }

  /** What combining promises for one channel. */
  ghost predicate Combined(chosen: seq<Airing>, lists: seq<seq<Airing>>) {
    && Disjoint(chosen)
    && multiset(chosen) <= Bag(lists)
    && (forall i :: 0 <= i < |lists| ==> Leaves(chosen, lists[i]))
    && exists base :: KeepsBase(chosen, lists, base)
  }

  ghost predicate KeepsBase(chosen: seq<Airing>, lists: seq<seq<Airing>>, base: nat) {
    && Richest(lists, base)
    && (base < |lists| ==>
          chosen == Filled(lists, base, |lists|) && forall a :: a in Greedy(lists[base], []) ==> a in chosen)
  }

  /** The base feed, and what each feed before feed n in turn has for the gaps. */
  ghost function Filled(lists: seq<seq<Airing>>, base: nat, n: nat): seq<Airing>
    requires base < |lists| && n <= |lists|
  {
    if n == 0 then Greedy(lists[base], [])
    else
      var before := Filled(lists, base, n - 1);
      if n - 1 == base then before else StableSort(before + Greedy(lists[n - 1], before), StartLe)
  }

  lemma {:induction false} BagHas(lists: seq<seq<Airing>>, i: nat)
    requires i < |lists|
    ensures multiset(lists[i]) <= Bag(lists)
  {
    if i < |lists| - 1 {
      assert lists[..|lists| - 1][i] == lists[i];
      BagHas(lists[..|lists| - 1], i);
    }
  }

  lemma GreedyCovers(list: seq<Airing>, taken: seq<Airing>, out: seq<Airing>)
    requires SortedBy(list, StartLe)
    requires forall a :: a in Greedy(list, taken) ==> a in out
    requires forall a :: a in taken ==> a in out
    ensures Leaves(out, list)
  {
    GreedyIsMaximal(list, taken);
    forall a | a in list && Positive(a) ensures Covered(out, a) {
      if Covered(Greedy(list, taken), a) {
        CoveredWithin(Greedy(list, taken), out, a);
      } else {
        assert Covered(taken, a);
        CoveredWithin(taken, out, a);
      }
    }
  }

  lemma CoveredWithin(s: seq<Airing>, out: seq<Airing>, a: Airing)
    requires Covered(s, a) && forall x :: x in s ==> x in out
    ensures Covered(out, a)
  {
    if a !in s {
      var i :| 0 <= i < |s| && Overlap(s[i], a);
      assert s[i] in out;
      var j :| 0 <= j < |out| && out[j] == s[i];
    }
  }

  lemma MergedElements(out: seq<Airing>, a: seq<Airing>, b: seq<Airing>)
    requires multiset(out) == multiset(a) + multiset(b)
    ensures forall x :: x in out <==> x in a || x in b
  {
    forall x ensures x in out <==> x in a || x in b {
      assert x in multiset(out) <==> x in multiset(a) || x in multiset(b);
    }
  }

  method CombineChannel(lists: seq<seq<Airing>>) returns (chosen: seq<Airing>)
    requires AllSorted(lists)
    ensures Combined(chosen, lists)
  {
    hide Greedy, Richest, Partly, Leaves, Disjoint, AllSorted, Bag;
    var base := RichestFeed(lists);
    if base >= |lists| {
      RichestEmpty(lists, base);
      EmptyCombined(lists, base);
      return [];
    }
    chosen := NoOverlaps(lists[base], []);
    BaseChosen(lists, base, chosen);
    for i := 0 to |lists|
      invariant Partly(chosen, lists, base, i)
    {
      PartlyDisjoint(chosen, lists, base, i);
      if i == base || |lists[i]| == 0 {
        SkipFeed(chosen, lists, base, i);
        continue;
      }
      var more := NoOverlaps(lists[i], chosen);
      GreedyIsDisjoint(lists[i], chosen);
      ApartFromTaken(chosen, more);
      var merged := MergeByStart(chosen, more);
      AddFeed(chosen, more, merged, lists, base, i);
      chosen := merged;
    }
    AllFeeds(chosen, lists, base);
  }

  /** The schedule from the base feed and the others before feed i. */
  ghost predicate Partly(chosen: seq<Airing>, lists: seq<seq<Airing>>, base: nat, i: nat)
    requires base < |lists| && i <= |lists|
  {
    && Disjoint(chosen)
    && chosen == Filled(lists, base, i)
    && (forall a :: a in Greedy(lists[base], []) ==> a in chosen)
    && (forall j :: 0 <= j < i && j != base ==> Leaves(chosen, lists[j]))
    && multiset(chosen) <= BagUpTo(lists, base, i)
  }

  lemma PartlyDisjoint(chosen: seq<Airing>, lists: seq<seq<Airing>>, base: nat, i: nat)
    requires base < |lists| && i <= |lists| && Partly(chosen, lists, base, i)
    ensures Disjoint(chosen)
  {
  }

  lemma BaseChosen(lists: seq<seq<Airing>>, base: nat, chosen: seq<Airing>)
    requires base < |lists| && chosen == Greedy(lists[base], [])
    ensures Partly(chosen, lists, base, 0)
  {
    GreedyIsDisjoint(lists[base], []);
    BagParts(lists, base, 0);
  }

  lemma SkipFeed(chosen: seq<Airing>, lists: seq<seq<Airing>>, base: nat, i: nat)
    requires base < |lists| && i < |lists| && Partly(chosen, lists, base, i)
    requires i == base || lists[i] == []
    ensures Partly(chosen, lists, base, i + 1)
  {
    hide Filled, Greedy, Disjoint, Leaves, BagUpTo;
    FilledSkips(lists, base, i, chosen);
    BagParts(lists, base, i);
    NothingLeft(chosen);
    assert BagUpTo(lists, base, i + 1) == BagUpTo(lists, base, i);
  }

  lemma NothingLeft(chosen: seq<Airing>)
    ensures Leaves(chosen, [])
  {
  }

  lemma AddFeed(chosen: seq<Airing>, more: seq<Airing>, merged: seq<Airing>, lists: seq<seq<Airing>>, base: nat, i: nat)
    requires AllSorted(lists) && base < |lists| && i < |lists| && i != base && Partly(chosen, lists, base, i)
    requires more == Greedy(lists[i], chosen)
    requires Disjoint(merged) && multiset(merged) == multiset(chosen) + multiset(more)
    ensures Partly(merged, lists, base, i + 1)
  {
    hide Greedy, Disjoint, Leaves, Filled, StableSort;
    FilledNext(lists, base, i);
    SortedAs(merged, chosen + more);
    BagParts(lists, base, i);
    GreedyIsDisjoint(lists[i], chosen);
    MergedElements(merged, chosen, more);
    GreedyCovers(lists[i], chosen, merged);
    LeavesWithin(chosen, merged, lists);
  }

  lemma FilledSkips(lists: seq<seq<Airing>>, base: nat, i: nat, chosen: seq<Airing>)
    requires base < |lists| && i < |lists| && chosen == Filled(lists, base, i) && Disjoint(chosen)
    requires i == base || lists[i] == []
    ensures Filled(lists, base, i + 1) == chosen
  {
    FilledNext(lists, base, i);
    NoRows(chosen);
    InOrderAlready(chosen);
    hide Filled, StableSort, Greedy, Disjoint;
    assert chosen + [] == chosen;
  }

  lemma NoRows(taken: seq<Airing>)
    ensures Greedy([], taken) == []
  {
  }

  lemma FilledNext(lists: seq<seq<Airing>>, base: nat, n: nat)
    requires base < |lists| && n < |lists|
    ensures var before := Filled(lists, base, n);
            Filled(lists, base, n + 1) == if n == base then before else StableSort(before + Greedy(lists[n], before), StartLe)
  {
    hide Greedy, StableSort;
  }

  lemma FilledElements(lists: seq<seq<Airing>>, base: nat, n: nat, after: seq<Airing>)
    requires base < |lists| && n < |lists| && after == Filled(lists, base, n + 1)
    ensures var before := Filled(lists, base, n);
            forall a :: a in after <==> a in before || (n != base && a in Greedy(lists[n], before))
  {
    FilledNext(lists, base, n);
    hide Filled, Greedy, StableSort;
    if n != base {
      MergedElements(after, Filled(lists, base, n), Greedy(lists[n], Filled(lists, base, n)));
    }
  }

  /** Airings apart start apart: there is one order by start. */
  lemma SortedAs(out: seq<Airing>, rows: seq<Airing>)
    requires Disjoint(out) && multiset(out) == multiset(rows)
    ensures out == StableSort(rows, StartLe)
  {
    StableSortSorts(rows, StartLe);
    forall i, j | 0 <= i < j < |out| ensures out[i].start < out[j].start {
      assert Positive(out[i]) && out[i].end <= out[j].start;
    }
    SortedUnique(out, StableSort(rows, StartLe), StartLe);
  }

  lemma InOrderAlready(out: seq<Airing>)
    requires Disjoint(out)
    ensures StableSort(out, StartLe) == out
  {
    SortedAs(out, out);
  }

  lemma AllFeeds(chosen: seq<Airing>, lists: seq<seq<Airing>>, base: nat)
    requires AllSorted(lists) && base < |lists| && Partly(chosen, lists, base, |lists|) && Richest(lists, base)
    ensures Combined(chosen, lists)
  {
    hide Greedy, Disjoint, Leaves, Richest;
    BagParts(lists, base, |lists|);
    GreedyCovers(lists[base], [], chosen);
    assert KeepsBase(chosen, lists, base);
  }

  lemma EmptyCombined(lists: seq<seq<Airing>>, base: nat)
    requires lists == [] && Richest(lists, base)
    ensures Combined([], lists)
  {
    assert KeepsBase([], lists, base);
  }

  lemma RichestEmpty(lists: seq<seq<Airing>>, base: nat)
    requires Richest(lists, base) && base >= |lists|
    ensures lists == []
  {
  }

  lemma ApartFromTaken(taken: seq<Airing>, more: seq<Airing>)
    requires forall a :: a in more ==> !OverlapsAny(taken, a)
    ensures Separate(taken, more)
  {
    forall i, j | 0 <= i < |taken| && 0 <= j < |more| ensures !Overlap(taken[i], more[j]) {
      assert !OverlapsAny(taken, more[j]);
    }
  }

  lemma LeavesWithin(chosen: seq<Airing>, merged: seq<Airing>, lists: seq<seq<Airing>>)
    requires forall a :: a in chosen ==> a in merged
    ensures forall i :: 0 <= i < |lists| && Leaves(chosen, lists[i]) ==> Leaves(merged, lists[i])
  {
    forall i, a | 0 <= i < |lists| && Leaves(chosen, lists[i]) && a in lists[i] && Positive(a) ensures Covered(merged, a) {
      CoveredWithin(chosen, merged, a);
    }
  }

  /** The airings of the base feed and of the others before feed i. */
  ghost function BagUpTo(lists: seq<seq<Airing>>, base: nat, i: nat): multiset<Airing>
    requires base < |lists| && i <= |lists|
  {
    if base < i then Bag(lists[..i]) else Bag(lists[..i]) + multiset(lists[base])
  }

  lemma BagParts(lists: seq<seq<Airing>>, base: nat, i: nat)
    requires base < |lists| && i <= |lists|
    ensures multiset(lists[base]) <= BagUpTo(lists, base, i)
    ensures i < |lists| && i == base ==> BagUpTo(lists, base, i + 1) == BagUpTo(lists, base, i)
    ensures i < |lists| && i != base ==> BagUpTo(lists, base, i + 1) == BagUpTo(lists, base, i) + multiset(lists[i])
    ensures i == |lists| ==> BagUpTo(lists, base, i) == Bag(lists)
  {
    if base < i {
      BagHas(lists[..i], base);
    }
    if i < |lists| {
      assert lists[..i + 1][..i] == lists[..i];
    } else {
      assert lists[..i] == lists;
    }
  }

  // ----- every channel -----

  function OnChannel(s: seq<Airing>, c: int): seq<Airing> {
    if s == [] then []
    else
      var before, last := OnChannel(s[..|s| - 1], c), s[|s| - 1];
      if last.channel == c then before + [last] else before
  }

  lemma {:induction false} OnChannelOnly(s: seq<Airing>, c: int)
    ensures forall a :: a in OnChannel(s, c) ==> a in s && a.channel == c
    ensures (forall a :: a in s ==> a.channel == c) ==> OnChannel(s, c) == s
    ensures (forall a :: a in s ==> a.channel != c) ==> OnChannel(s, c) == []
  {
    if s != [] {
      OnChannelOnly(s[..|s| - 1], c);
      assert s == s[..|s| - 1] + [s[|s| - 1]];
    }
  }

  lemma {:induction false} OnChannelConcat(a: seq<Airing>, b: seq<Airing>, c: int)
    ensures OnChannel(a + b, c) == OnChannel(a, c) + OnChannel(b, c)
  {
    if b == [] {
      assert a + b == a && OnChannel(a, c) + [] == OnChannel(a, c);
    } else {
      assert (a + b)[..|a + b| - 1] == a + b[..|b| - 1];
      OnChannelConcat(a, b[..|b| - 1], c);
    }
  }

  /** One channel's listings, feed by feed, each in time order. */
  ghost function ListsOf(feeds: seq<seq<Airing>>, c: int): (lists: seq<seq<Airing>>)
    ensures |lists| == |feeds| && forall i :: 0 <= i < |feeds| ==> lists[i] == StableSort(OnChannel(feeds[i], c), StartLe)
  {
    seq(|feeds|, i requires 0 <= i < |feeds| => StableSort(OnChannel(feeds[i], c), StartLe))
  }

  type Picks = map<int, seq<seq<Airing>>>

  ghost predicate Shaped(per: Picks, feeds: seq<seq<Airing>>) {
    forall c :: c in per ==> |per[c]| == |feeds|
  }

  ghost function Part(per: Picks, feeds: seq<seq<Airing>>, c: int, j: nat): seq<Airing>
    requires Shaped(per, feeds) && j < |feeds|
  {
    if c in per then per[c][j] else []
  }

  /** The rows of feed j taken in once feed i is at row k. */
  ghost function Taken(feeds: seq<seq<Airing>>, i: nat, k: nat, j: nat): seq<Airing>
    requires j < |feeds| && (i < |feeds| ==> k <= |feeds[i]|)
  {
    if j < i then feeds[j] else if j == i then feeds[i][..k] else []
  }

  ghost predicate Grouped(per: Picks, feeds: seq<seq<Airing>>, i: nat, k: nat)
    requires i < |feeds| ==> k <= |feeds[i]|
  {
    Shaped(per, feeds) &&
    forall c, j :: 0 <= j < |feeds| ==> Part(per, feeds, c, j) == OnChannel(Taken(feeds, i, k, j), c)
  }

  lemma GroupRow(per: Picks, next: Picks, feeds: seq<seq<Airing>>, i: nat, k: nat)
    requires i < |feeds| && k < |feeds[i]| && Grouped(per, feeds, i, k) && Shaped(next, feeds)
    requires var row := feeds[i][k];
             forall c, j :: 0 <= j < |feeds| ==>
               Part(next, feeds, c, j) ==
               Part(per, feeds, c, j) + (if c == row.channel && j == i then [row] else [])
    ensures Grouped(next, feeds, i, k + 1)
  {
    hide Part, OnChannel, StableSort;
    forall c, j | 0 <= j < |feeds| ensures Part(next, feeds, c, j) == OnChannel(Taken(feeds, i, k + 1, j), c) {
      assert Part(per, feeds, c, j) == OnChannel(Taken(feeds, i, k, j), c);
      if j == i {
        OneMore(feeds[i], k, c);
      } else {
        assert Part(per, feeds, c, j) + [] == Part(per, feeds, c, j);
      }
    }
  }

  lemma OneMore(s: seq<Airing>, k: nat, c: int)
    requires k < |s|
    ensures OnChannel(s[..k + 1], c) == OnChannel(s[..k], c) + if c == s[k].channel then [s[k]] else []
  {
    assert s[..k + 1][..k] == s[..k];
    assert OnChannel(s[..k], c) + [] == OnChannel(s[..k], c);
  }

  lemma GroupFeed(per: Picks, feeds: seq<seq<Airing>>, i: nat)
    requires i < |feeds| && Grouped(per, feeds, i, |feeds[i]|)
    ensures Grouped(per, feeds, i + 1, 0)
  {
    assert feeds[i][..|feeds[i]|] == feeds[i];
    forall c, j | 0 <= j < |feeds| ensures Part(per, feeds, c, j) == OnChannel(Taken(feeds, i + 1, 0, j), c) {
      assert Taken(feeds, i + 1, 0, j) == Taken(feeds, i, |feeds[i]|, j);
    }
  }

  ghost predicate Distinct(ids: seq<int>) {
    forall i, j :: 0 <= i < j < |ids| ==> ids[i] != ids[j]
  }

  method AddRow(per0: Picks, ids0: seq<int>, ghost feeds: seq<seq<Airing>>, n: nat, i: nat, row: Airing)
    returns (per: Picks, ids: seq<int>)
    requires n == |feeds| && i < n && Shaped(per0, feeds)
    requires Distinct(ids0) && forall c :: c in ids0 <==> c in per0
    ensures Shaped(per, feeds) && Distinct(ids) && forall c :: c in ids <==> c in per
    ensures forall c, j :: 0 <= j < n ==>
              Part(per, feeds, c, j) ==
              Part(per0, feeds, c, j) + (if c == row.channel && j == i then [row] else [])
  {
    per, ids := per0, ids0;
    if row.channel !in per {
      per := per[row.channel := seq(n, _ => [])];
      ids := ids + [row.channel];
    }
    var lists := per[row.channel];
    per := per[row.channel := lists[i := lists[i] + [row]]];
  }

  method Group(feeds: seq<seq<Airing>>) returns (per: Picks, ids: seq<int>)
    ensures Grouped(per, feeds, |feeds|, 0)
    ensures Distinct(ids) && forall c :: c in ids <==> c in per
  {
    hide Part, Taken, OnChannel, Distinct;
    per, ids := map[], [];
    GroupStart(feeds);
    for i := 0 to |feeds|
      invariant Grouped(per, feeds, i, 0)
      invariant Distinct(ids) && forall c :: c in ids <==> c in per
    {
      for k := 0 to |feeds[i]|
        invariant Grouped(per, feeds, i, k)
        invariant Distinct(ids) && forall c :: c in ids <==> c in per
      {
        ghost var before := per;
        per, ids := AddRow(per, ids, feeds, |feeds|, i, feeds[i][k]);
        GroupRow(before, per, feeds, i, k);
      }
      GroupFeed(per, feeds, i);
    }
  }

  lemma GroupStart(feeds: seq<seq<Airing>>)
    ensures Grouped(map[], feeds, 0, 0) && Distinct([])
  {
  }

  predicate IntLe(a: int, b: int) { a <= b }

  lemma IntOrder()
    ensures TotalPreorder(IntLe)
  {
  }

  lemma StartOrder()
    ensures TotalPreorder(StartLe)
  {
  }

  method SortLists(lists: seq<seq<Airing>>) returns (sorted: seq<seq<Airing>>)
    ensures |sorted| == |lists| && forall i :: 0 <= i < |lists| ==> sorted[i] == StableSort(lists[i], StartLe)
  {
    sorted := lists;
    for i := 0 to |lists|
      invariant |sorted| == |lists|
      invariant forall j :: 0 <= j < i ==> sorted[j] == StableSort(lists[j], StartLe)
      invariant forall j :: i <= j < |lists| ==> sorted[j] == lists[j]
    {
      sorted := sorted[i := StableSort(sorted[i], StartLe)];
    }
  }

  lemma ListsSorted(feeds: seq<seq<Airing>>, c: int)
    ensures AllSorted(ListsOf(feeds, c))
  {
    StartOrder();
    forall i | 0 <= i < |feeds| ensures SortedBy(ListsOf(feeds, c)[i], StartLe) {
      StableSortSorts(OnChannel(feeds[i], c), StartLe);
    }
  }

  lemma {:induction false} BagMember(lists: seq<seq<Airing>>, a: Airing)
    requires a in Bag(lists)
    ensures exists i :: 0 <= i < |lists| && a in lists[i]
  {
    var n := |lists| - 1;
    if a in Bag(lists[..n]) {
      BagMember(lists[..n], a);
      var i :| 0 <= i < n && a in lists[..n][i];
      assert a in lists[i];
    } else {
      assert a in lists[n];
    }
  }

  lemma ChosenOnChannel(chosen: seq<Airing>, feeds: seq<seq<Airing>>, c: int)
    requires Combined(chosen, ListsOf(feeds, c))
    ensures forall a :: a in chosen ==> a.channel == c
  {
    forall a | a in chosen ensures a.channel == c {
      assert a in multiset(chosen);
      BagMember(ListsOf(feeds, c), a);
      var i :| 0 <= i < |feeds| && a in ListsOf(feeds, c)[i];
      assert a in multiset(StableSort(OnChannel(feeds[i], c), StartLe));
      assert a in multiset(OnChannel(feeds[i], c));
      OnChannelOnly(feeds[i], c);
    }
  }

  lemma UnlistedCombined(feeds: seq<seq<Airing>>, c: int)
    requires forall i :: 0 <= i < |feeds| ==> OnChannel(feeds[i], c) == []
    ensures Combined([], ListsOf(feeds, c))
  {
    var lists := ListsOf(feeds, c);
    assert forall i :: 0 <= i < |lists| ==> lists[i] == [];
    if lists != [] {
      NothingFilled(lists, 0, |lists|);
    }
    assert KeepsBase([], lists, 0);
  }

  lemma {:induction false} NothingFilled(lists: seq<seq<Airing>>, base: nat, n: nat)
    requires base < |lists| && n <= |lists| && forall i :: 0 <= i < |lists| ==> lists[i] == []
    ensures Filled(lists, base, n) == []
  {
    if n > 0 {
      NothingFilled(lists, base, n - 1);
    }
  }

  /** Rows of the first k channels, channel by channel. */
  ghost predicate ByChannel(out: seq<Airing>, ids: seq<int>, k: nat)
    requires k <= |ids|
  {
    && (forall a :: a in out ==> exists j :: 0 <= j < k && a.channel == ids[j])
    && (forall i, j :: 0 <= i < j < |out| ==> out[i].channel <= out[j].channel)
  }

  /** The first k channels are combined, and out holds nothing else. */
  ghost predicate CombinedSoFar(out: seq<Airing>, feeds: seq<seq<Airing>>, ids: seq<int>, k: nat)
    requires k <= |ids|
  {
    && (forall j :: 0 <= j < k ==> Combined(OnChannel(out, ids[j]), ListsOf(feeds, ids[j])))
    && ByChannel(out, ids, k)
  }

  method ListedChannel(per: Picks, feeds: seq<seq<Airing>>, id: int) returns (chosen: seq<Airing>)
    requires Grouped(per, feeds, |feeds|, 0) && id in per
    ensures Combined(chosen, ListsOf(feeds, id)) && forall a :: a in chosen ==> a.channel == id
  {
    hide Combined, OnChannel, Grouped, AllSorted, StableSort;
    GroupedLists(per, feeds, id);
    var lists := SortLists(per[id]);
    assert lists == ListsOf(feeds, id);
    ListsSorted(feeds, id);
    chosen := CombineChannel(lists);
    ChosenOnChannel(chosen, feeds, id);
  }

  /** Each channel of the combined guide keeps what combining promises; the channels come in ascending order. */
  method CombineGuide(feeds: seq<seq<Airing>>) returns (out: seq<Airing>)
    ensures forall c :: Combined(OnChannel(out, c), ListsOf(feeds, c))
    ensures forall i, j :: 0 <= i < j < |out| ==> out[i].channel <= out[j].channel
  {
    hide StableSort, Grouped, Distinct, CombinedSoFar, Combined, OnChannel, ListsOf;
    var per, unordered := Group(feeds);
    var ids := StableSort(unordered, IntLe);
    SortedIds(unordered, ids);
    out := [];
    NoneCombined(feeds, ids);
    for k := 0 to |ids|
      invariant CombinedSoFar(out, feeds, ids, k)
    {
      assert ids[k] in ids;
      var chosen := ListedChannel(per, feeds, ids[k]);
      AddCombined(out, chosen, feeds, ids, k);
      out := out + chosen;
    }
    AllCombined(out, ids, per, feeds);
  }

  lemma NoneCombined(feeds: seq<seq<Airing>>, ids: seq<int>)
    ensures CombinedSoFar([], feeds, ids, 0)
  {
  }

  lemma AddCombined(out: seq<Airing>, chosen: seq<Airing>, feeds: seq<seq<Airing>>, ids: seq<int>, k: nat)
    requires k < |ids| && forall i, j :: 0 <= i < j < |ids| ==> ids[i] < ids[j]
    requires CombinedSoFar(out, feeds, ids, k)
    requires Combined(chosen, ListsOf(feeds, ids[k])) && forall a :: a in chosen ==> a.channel == ids[k]
    ensures CombinedSoFar(out + chosen, feeds, ids, k + 1)
  {
    hide Combined, OnChannel, ListsOf, ByChannel;
    AddChannel(out, chosen, ids, k);
  }

  lemma AllCombined(out: seq<Airing>, ids: seq<int>, per: Picks, feeds: seq<seq<Airing>>)
    requires Grouped(per, feeds, |feeds|, 0) && forall c :: c in ids <==> c in per
    requires CombinedSoFar(out, feeds, ids, |ids|)
    ensures forall c :: Combined(OnChannel(out, c), ListsOf(feeds, c))
    ensures forall i, j :: 0 <= i < j < |out| ==> out[i].channel <= out[j].channel
  {
    hide Combined, OnChannel, Grouped, ListsOf;
    forall c ensures Combined(OnChannel(out, c), ListsOf(feeds, c)) {
      if c in ids {
        var j :| 0 <= j < |ids| && ids[j] == c;
      } else {
        NotGrouped(per, feeds, c);
        UnlistedCombined(feeds, c);
        NotOnChannel(out, ids, c);
      }
    }
  }

  lemma NotOnChannel(out: seq<Airing>, ids: seq<int>, c: int)
    requires c !in ids && forall a :: a in out ==> exists j :: 0 <= j < |ids| && a.channel == ids[j]
    ensures OnChannel(out, c) == []
  {
    OnChannelOnly(out, c);
  }

  lemma SortedIds(unordered: seq<int>, ids: seq<int>)
    requires Distinct(unordered) && ids == StableSort(unordered, IntLe)
    ensures forall c :: c in ids <==> c in unordered
    ensures forall i, j :: 0 <= i < j < |ids| ==> ids[i] < ids[j]
  {
    IntOrder();
    StableSortSorts(unordered, IntLe);
    forall c ensures c in ids <==> c in unordered {
      assert c in multiset(ids) <==> c in multiset(unordered);
    }
    hide StableSort;
    forall i, j | 0 <= i < j < |ids| ensures ids[i] < ids[j] {
      assert IntLe(ids[i], ids[j]);
      Twice(ids, i, j);
      OnceDistinct(unordered, ids[i]);
    }
  }

  lemma Twice(ids: seq<int>, i: nat, j: nat)
    requires i < j < |ids|
    ensures ids[i] == ids[j] ==> multiset(ids)[ids[i]] >= 2
  {
    assert ids == ids[..i] + [ids[i]] + ids[i + 1..j] + [ids[j]] + ids[j + 1..];
  }

  lemma {:induction false} OnceDistinct(ids: seq<int>, x: int)
    requires Distinct(ids)
    ensures multiset(ids)[x] <= 1
  {
    if ids != [] {
      assert ids == [ids[0]] + ids[1..];
      OnceDistinct(ids[1..], x);
      assert ids[0] !in ids[1..];
    }
  }

  lemma GroupedLists(per: Picks, feeds: seq<seq<Airing>>, c: int)
    requires Grouped(per, feeds, |feeds|, 0) && c in per
    ensures |per[c]| == |feeds| && forall i :: 0 <= i < |feeds| ==> per[c][i] == OnChannel(feeds[i], c)
  {
    forall i | 0 <= i < |feeds| ensures per[c][i] == OnChannel(feeds[i], c) {
      assert Part(per, feeds, c, i) == OnChannel(Taken(feeds, |feeds|, 0, i), c);
    }
  }

  lemma NotGrouped(per: Picks, feeds: seq<seq<Airing>>, c: int)
    requires Grouped(per, feeds, |feeds|, 0) && c !in per
    ensures forall i :: 0 <= i < |feeds| ==> OnChannel(feeds[i], c) == []
  {
    forall i | 0 <= i < |feeds| ensures OnChannel(feeds[i], c) == [] {
      assert Part(per, feeds, c, i) == OnChannel(Taken(feeds, |feeds|, 0, i), c);
    }
  }

  lemma AddChannel(out: seq<Airing>, chosen: seq<Airing>, ids: seq<int>, k: nat)
    requires k < |ids| && forall i, j :: 0 <= i < j < |ids| ==> ids[i] < ids[j]
    requires ByChannel(out, ids, k) && forall a :: a in chosen ==> a.channel == ids[k]
    ensures forall j :: 0 <= j < k ==> OnChannel(out + chosen, ids[j]) == OnChannel(out, ids[j])
    ensures OnChannel(out + chosen, ids[k]) == chosen
    ensures ByChannel(out + chosen, ids, k + 1)
  {
    hide OnChannel;
    forall j | 0 <= j < k ensures OnChannel(out + chosen, ids[j]) == OnChannel(out, ids[j]) {
      OnChannelConcat(out, chosen, ids[j]);
      OnChannelOnly(chosen, ids[j]);
      assert OnChannel(out, ids[j]) + [] == OnChannel(out, ids[j]);
    }
    OnChannelConcat(out, chosen, ids[k]);
    OnChannelOnly(out, ids[k]);
    OnChannelOnly(chosen, ids[k]);
    forall i, j | 0 <= i < |out| && 0 <= j < |chosen| ensures out[i].channel <= chosen[j].channel {
      assert out[i] in out && chosen[j] in chosen;
    }
  }

  // ----- what decides which airing is listed -----

  ghost predicate Shows(a: Airing, t: int) { a.start <= t < a.end }

  /** Two airings overlap exactly when both are on at some instant. */
  lemma OverlapMeans(a: Airing, b: Airing)
    requires Positive(a) && Positive(b)
    ensures Overlap(a, b) <==> exists t :: Shows(a, t) && Shows(b, t)
  {
    var t := if a.start < b.start then b.start else a.start;
    if Overlap(a, b) {
      assert Shows(a, t) && Shows(b, t);
    }
  }

  function StartsIn(from: int, to: int): Airing -> bool { (a: Airing) => from <= a.start < to }

  function Details(list: seq<Airing>): nat {
    if list == [] then 0 else list[0].detail + Details(list[1..])
  }

  lemma {:induction false} DetailsConcat(a: seq<Airing>, b: seq<Airing>)
    ensures Details(a + b) == Details(a) + Details(b)
  {
    if a == [] {
      assert a + b == b;
    } else {
      assert (a + b)[1..] == a[1..] + b;
      DetailsConcat(a[1..], b);
    }
  }

  /** A feed's score is the detail of its airings that start in the stretch. */
  lemma {:induction false} ScoreMeans(list: seq<Airing>, from: int, to: int)
    ensures Score(list, from, to) == Details(Filter(list, StartsIn(from, to)))
  {
    if list != [] {
      var init, row := list[..|list| - 1], list[|list| - 1];
      ScoreMeans(init, from, to);
      assert list == init + [row];
      FilterConcat(init, [row], StartsIn(from, to));
      FilterOne(row, StartsIn(from, to));
      DetailsConcat(Filter(init, StartsIn(from, to)), Filter([row], StartsIn(from, to)));
      assert Details([row]) == row.detail + Details([]);
    }
  }

  /** The shared stretch goes from the latest first start to the earliest last end. */
  lemma {:induction false} SharedIs(lists: seq<seq<Airing>>, n: nat)
    requires n <= |lists| && exists i :: 0 <= i < n && lists[i] != []
    ensures var from, to := SharedFrom(lists, n), SharedTo(lists, n);
      && (forall i :: 0 <= i < n && lists[i] != [] ==> lists[i][0].start <= from && to <= lists[i][|lists[i]| - 1].end)
      && (exists i :: 0 <= i < n && lists[i] != [] && lists[i][0].start == from)
      && (exists i :: 0 <= i < n && lists[i] != [] && lists[i][|lists[i]| - 1].end == to)
  {
    var last := lists[n - 1];
    if last == [] || exists i :: 0 <= i < n - 1 && lists[i] != [] {
      SharedIs(lists, n - 1);
    }
  }

  lemma {:induction false} FilledFrom(lists: seq<seq<Airing>>, base: nat, n: nat, a: Airing)
    requires base < |lists| && n <= |lists| && a in Filled(lists, base, n)
    ensures a in lists[base] || exists j :: 0 <= j < n && a in lists[j]
  {
    hide Greedy, Disjoint, OverlapsAny, StableSort;
    if n == 0 {
      GreedyIsDisjoint(lists[base], []);
    } else {
      var before := Filled(lists, base, n - 1);
      FilledElements(lists, base, n - 1, Filled(lists, base, n));
      hide Filled;
      if a in before {
        FilledFrom(lists, base, n - 1, a);
      } else {
        GreedyIsDisjoint(lists[n - 1], before);
      }
    }
  }

  lemma {:induction false} FilledGrows(lists: seq<seq<Airing>>, base: nat, n: nat, m: nat)
    requires base < |lists| && n <= m <= |lists|
    ensures forall a :: a in Filled(lists, base, n) ==> a in Filled(lists, base, m)
    decreases m
  {
    hide Filled;
    if n < m {
      FilledGrows(lists, base, n, m - 1);
      FilledElements(lists, base, m - 1, Filled(lists, base, m));
    }
  }

  /** An airing with a length that is not listed overlaps one that is, of the base feed or of no later feed than its own. */
  lemma EarlierFeedsWin(lists: seq<seq<Airing>>, base: nat, i: nat, a: Airing) returns (row: Airing)
    requires AllSorted(lists) && base < |lists| && i < |lists| && i != base && a in lists[i] && Positive(a)
    requires a !in Filled(lists, base, |lists|)
    ensures row in Filled(lists, base, |lists|) && Overlap(row, a)
    ensures row in lists[base] || exists j :: 0 <= j <= i && row in lists[j]
  {
    hide Greedy, Filled, Overlap;
    var before, after := Filled(lists, base, i), Filled(lists, base, i + 1);
    FilledElements(lists, base, i, after);
    GreedyCovers(lists[i], before, after);
    FilledGrows(lists, base, i + 1, |lists|);
    assert Covered(after, a);
    var k :| 0 <= k < |after| && Overlap(after[k], a);
    row := after[k];
    FilledFrom(lists, base, i + 1, row);
  }
}
