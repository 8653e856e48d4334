/** The recordings a pass's keep rule removes. Times are nanoseconds. */
module KeepRule {
  import opened Sorting

  datatype Mode = Unwatched | Last | KeepAll

  /** own says that the pass's rules cover the recording. */
  datatype Recording = Recording(
    id: int, startedAt: int, keep: bool, recording: bool, incomplete: bool, own: bool, played: bool)
  {
    predicate Counted() { !keep && !recording && !incomplete && own }
  }

  function IsCounted(): Recording -> bool { (r: Recording) => r.Counted() }

  function IsPlayed(): Recording -> bool { (r: Recording) => r.played }

  function Ids(recs: seq<Recording>): seq<int> {
    seq(|recs|, i requires 0 <= i < |recs| => recs[i].id)
  }

  predicate NewestFirst(recs: seq<Recording>) {
    forall i, j :: 0 <= i < j < |recs| ==> recs[i].startedAt >= recs[j].startedAt
  }

  function Swapped(s: seq<Recording>, i: nat, j: nat): (r: seq<Recording>)
    requires i < |s| && j < |s|
    ensures |r| == |s|
  {
    s[i := s[j]][j := s[i]]
  }

  lemma SwapKeeps(s: seq<Recording>, i: nat, j: nat)
    requires i < j < |s|
    ensures multiset(Swapped(s, i, j)) == multiset(s)
  {
    assert s == s[..i] + [s[i]] + s[i + 1..j] + [s[j]] + s[j + 1..];
    assert Swapped(s, i, j) == s[..i] + [s[j]] + s[i + 1..j] + [s[i]] + s[j + 1..];
  }

  /** The exchange sort over the pass's recordings, in place. */
  method SortNewestFirst(mine: array<Recording>)
    modifies mine
    ensures NewestFirst(mine[..]) && multiset(mine[..]) == old(multiset(mine[..]))
  {
    for i := 0 to mine.Length
      invariant multiset(mine[..]) == old(multiset(mine[..]))
      invariant NewestFirst(mine[..i])
      invariant forall p, q :: 0 <= p < i <= q < mine.Length ==> mine[p].startedAt >= mine[q].startedAt
    {
      for j := i + 1 to mine.Length
        invariant multiset(mine[..]) == old(multiset(mine[..]))
        invariant NewestFirst(mine[..i])
        invariant forall p, q :: 0 <= p < i <= q < mine.Length ==> mine[p].startedAt >= mine[q].startedAt
        invariant forall q :: i <= q < j ==> mine[i].startedAt >= mine[q].startedAt
      {
        if mine[j].startedAt > mine[i].startedAt {
          Exchange(mine, i, j);
        }
      }
      assert mine[..i + 1] == mine[..i] + [mine[i]];
    }
    assert mine[..mine.Length] == mine[..];
  }

  method Exchange(mine: array<Recording>, i: nat, j: nat)
    requires i < j < mine.Length
    modifies mine
    ensures mine[i] == old(mine[j]) && mine[j] == old(mine[i])
    ensures forall k :: 0 <= k < mine.Length && k != i && k != j ==> mine[k] == old(mine[k])
    ensures mine[..i] == old(mine[..i]) && multiset(mine[..]) == old(multiset(mine[..]))
  {
    SwapKeeps(mine[..], i, j);
    mine[i], mine[j] := mine[j], mine[i];
    assert mine[..] == Swapped(old(mine[..]), i, j);
  }

  function Counted(recs: seq<Recording>): seq<Recording> { Filter(recs, IsCounted()) }

  function AtLeastOne(n: int): nat { if n < 1 then 1 else n }

  /** order is the recordings the rule counts, newest first. */
  ghost predicate Arranged(recs: seq<Recording>, order: seq<Recording>) {
    multiset(order) == multiset(Counted(recs)) && NewestFirst(order)
  }

  /** Neither kept forever nor still recording nor incomplete, and of the pass itself. */
  ghost predicate MayGo(r: Recording) { !(r.keep || r.recording || r.incomplete) && r.own }

  lemma PlayedGo(recs: seq<Recording>)
    ensures forall id :: id in Ids(Filter(Counted(recs), IsPlayed())) ==> exists r :: r in recs && r.id == id && MayGo(r)
    ensures forall r :: r in recs && MayGo(r) && r.played ==> r.id in Ids(Filter(Counted(recs), IsPlayed()))
  {
    var list := Filter(Counted(recs), IsPlayed());
    forall r | r in recs && MayGo(r) && r.played ensures r.id in Ids(list) {
      assert r in list;
      var i :| 0 <= i < |list| && list[i] == r;
      assert Ids(list)[i] == r.id;
    }
    forall id | id in Ids(list) ensures exists r :: r in recs && r.id == id && MayGo(r) {
      var i :| 0 <= i < |list| && Ids(list)[i] == id;
      assert list[i] in Counted(recs) && list[i] in recs;
    }
  }

  lemma OrderGoes(recs: seq<Recording>, order: seq<Recording>, n: nat)
    requires Arranged(recs, order) && n <= |order|
    ensures forall id :: id in Ids(order[n..]) ==> exists r :: r in recs && r.id == id && MayGo(r)
  {
    forall id | id in Ids(order[n..]) ensures exists r :: r in recs && r.id == id && MayGo(r) {
      var i :| 0 <= i < |order[n..]| && Ids(order[n..])[i] == id;
      var r := order[n + i];
      assert r in multiset(order) && r in Counted(recs) && r in recs;
    }
  }

  /** A recording kept forever, still recording, incomplete or of another pass is not counted; all others are. */
  lemma CountedMayGo(recs: seq<Recording>, r: Recording)
    ensures r in Counted(recs) <==> r in recs && MayGo(r)
  {
  }

  method KeepVictims(mode: Mode, count: int, recs: seq<Recording>) returns (ids: seq<int>)
    ensures mode.KeepAll? ==> ids == []
    ensures mode.Unwatched? ==> ids == Ids(Filter(Counted(recs), IsPlayed()))
    ensures mode.Last? && |Counted(recs)| <= AtLeastOne(count) ==> ids == []
    ensures mode.Last? && |Counted(recs)| > AtLeastOne(count) ==>
      exists order :: Arranged(recs, order) && |order| > AtLeastOne(count) && ids == Ids(order[AtLeastOne(count)..])
    ensures forall id :: id in ids ==> exists r :: r in recs && r.id == id && MayGo(r)
    ensures mode.Unwatched? ==> forall r :: r in recs && MayGo(r) && r.played ==> r.id in ids
  {
    hide Ids;
    var mine := CountedOf(recs);
    ids := [];
    if mode.Unwatched? {
      ids := PlayedIds(mine);
      PlayedGo(recs);
    } else if mode.Last? {
      var n := count;
      if n < 1 {
        n := 1;
      }
      if |mine| <= n {
        return;
      }
      var a := new Recording[|mine|](i requires 0 <= i < |mine| => mine[i]);
      assert a[..] == mine;
      SortNewestFirst(a);
      ghost var order := a[..];
      SameSize(order, mine);
      ids := IdsFrom(a, n);
      assert Arranged(recs, order) && ids == Ids(order[AtLeastOne(count)..]);
      OrderGoes(recs, order, n);
    }
  }

  method CountedOf(recs: seq<Recording>) returns (mine: seq<Recording>)
    ensures mine == Counted(recs)
  {
    mine := [];
    for i := 0 to |recs|
      invariant mine == Filter(recs[..i], IsCounted())
    {
      assert recs[..i + 1] == recs[..i] + [recs[i]];
      FilterConcat(recs[..i], [recs[i]], IsCounted());
      FilterOne(recs[i], IsCounted());
      if recs[i].keep || recs[i].recording || recs[i].incomplete || !recs[i].own {
        continue;
      }
      mine := mine + [recs[i]];
    }
    assert recs[..|recs|] == recs;
  }

  method IdsFrom(a: array<Recording>, n: nat) returns (ids: seq<int>)
    requires n <= a.Length
    ensures ids == Ids(a[..][n..])
  {
    ids := [];
    for i := n to a.Length
      invariant ids == Ids(a[n..i])
    {
      assert a[n..i + 1] == a[n..i] + [a[i]];
      ids := ids + [a[i].id];
    }
    assert a[n..a.Length] == a[..][n..];
  }

  lemma SameSize(a: seq<Recording>, b: seq<Recording>)
    requires multiset(a) == multiset(b)
    ensures |a| == |b|
  {
    assert |multiset(a)| == |a| && |multiset(b)| == |b|;
  }

  method PlayedIds(mine: seq<Recording>) returns (ids: seq<int>)
    ensures ids == Ids(Filter(mine, IsPlayed()))
  {
    ids := [];
    for i := 0 to |mine|
      invariant ids == Ids(Filter(mine[..i], IsPlayed()))
    {
      assert mine[..i + 1] == mine[..i] + [mine[i]];
      FilterConcat(mine[..i], [mine[i]], IsPlayed());
      FilterOne(mine[i], IsPlayed());
      if mine[i].played {
        ids := ids + [mine[i].id];
      }
    }
    assert mine[..|mine|] == mine;
  }

  // ----- what the rule leaves -----

  function Victims(order: seq<Recording>, count: int): seq<Recording> {
    if |order| <= AtLeastOne(count) then [] else order[AtLeastOne(count)..]
  }

  predicate DistinctIds(recs: seq<Recording>) {
    forall x, y :: x in recs && y in recs && x.id == y.id ==> x == y
  }

  predicate NoRepeats(recs: seq<Recording>) {
    forall i, j :: 0 <= i < j < |recs| ==> recs[i] != recs[j]
  }

  function Survives(victims: seq<Recording>): Recording -> bool {
    (r: Recording) => forall v :: v in victims ==> v.id != r.id
  }

  /** The rule removes only recordings it counts, none of them newer than one it leaves, and leaves the count. */
  lemma VictimsAreOldest(recs: seq<Recording>, order: seq<Recording>, count: int)
    requires Arranged(recs, order)
    ensures var victims := Victims(order, count);
            && (forall v :: v in victims ==> v in recs && v.Counted())
            && (forall v, r :: v in victims && r in order[..|order| - |victims|] ==> r.startedAt >= v.startedAt)
            && |order| - |victims| == if |order| < AtLeastOne(count) then |order| else AtLeastOne(count)
  {
    forall v | v in Victims(order, count) ensures v in recs && v.Counted() {
      assert v in order && v in multiset(order);
      assert v in Counted(recs);
    }
  }

  /** With the victims gone the rule counts exactly the newest it was to keep: applied again it removes nothing. */
  lemma KeepingTwiceIsOnce(recs: seq<Recording>, order: seq<Recording>, count: int)
    requires Arranged(recs, order) && DistinctIds(recs) && NoRepeats(order)
    ensures var victims := Victims(order, count);
            var left := Counted(Filter(recs, Survives(victims)));
            && multiset(left) == multiset(order[..|order| - |victims|])
            && |left| <= AtLeastOne(count)
  {
    var victims := Victims(order, count);
    var kept := order[..|order| - |victims|];
    var p := Survives(victims);
    assert order == kept + victims;
    VictimsAreOldest(recs, order, count);
    forall r | r in kept ensures p(r) {
      assert r in multiset(order) && r in Counted(recs);
      forall v | v in victims ensures v.id != r.id {
        assert v in recs && r in recs && v != r;
      }
    }
    FilterConcat(kept, victims, p);
    FilterNone(victims, p);
    FilterAll(kept, p);
    assert kept + [] == kept;
    FilterSwap(recs, IsCounted(), p);
    SameFilter(Counted(recs), order, p);
    SameSize(Filter(Counted(recs), p), kept);
  }

  lemma {:induction false} FilterSwap(s: seq<Recording>, p: Recording -> bool, q: Recording -> bool)
    ensures Filter(Filter(s, p), q) == Filter(Filter(s, q), p)
  {
    if s != [] {
      FilterSwap(s[1..], p, q);
      FilterCons(s[0], Filter(s[1..], p), q);
      FilterCons(s[0], Filter(s[1..], q), p);
    }
  }

  lemma FilterCons(r: Recording, s: seq<Recording>, p: Recording -> bool)
    ensures Filter([r] + s, p) == (if p(r) then [r] else []) + Filter(s, p)
  {
    assert ([r] + s)[1..] == s;
  }

  lemma SameFilter(a: seq<Recording>, b: seq<Recording>, p: Recording -> bool)
    requires multiset(a) == multiset(b)
    ensures multiset(Filter(a, p)) == multiset(Filter(b, p))
  {
    forall x ensures multiset(Filter(a, p))[x] == multiset(Filter(b, p))[x] {
      FilterMultiset(a, p, x);
      FilterMultiset(b, p, x);
    }
  }
}
