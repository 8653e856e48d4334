/** Which recordings a library channel plays, and in what order. */
module LibraryLineup {
  import opened Collections
  import opened Sorting

  /** Titles and subtitles stand for their rank in string order. */
  datatype Recording = Recording(id: int, failed: bool, duration: real, title: int, subtitle: int, startedAt: int)

  datatype Order = AsListed | Release | Random | Season | Marathon

  // ----- the lineup -----

  function ByID(recs: seq<Recording>): (m: map<int, Recording>)
    ensures forall id :: id in m ==> m[id].id == id && m[id] in recs
  {
    if recs == [] then map[]
    else
      var last := recs[|recs| - 1];
      ByID(recs[..|recs| - 1])[last.id := last]
  }

  function Listed(ids: seq<int>, byID: map<int, Recording>): (list: seq<Recording>)
    ensures forall r :: r in list ==> r in byID.Values && !r.failed
  {
    if ids == [] then []
    else
      var before, id := Listed(ids[..|ids| - 1], byID), ids[|ids| - 1];
      if id in byID && !byID[id].failed then before + [byID[id]] else before
  }

  function Playable(byID: map<int, Recording>): int -> bool {
    (id: int) => id in byID && !byID[id].failed
  }

  /** Every id listed whose recording is there and has not failed plays, as often as it is listed and in that order. */
  lemma {:induction false} ListedExactly(ids: seq<int>, byID: map<int, Recording>)
    ensures var kept := Filter(ids, Playable(byID));
            && (forall i :: 0 <= i < |kept| ==> kept[i] in byID)
            && |Listed(ids, byID)| == |kept|
            && forall i :: 0 <= i < |kept| ==> Listed(ids, byID)[i] == byID[kept[i]]
  {
    if ids != [] {
      var init, last := ids[..|ids| - 1], ids[|ids| - 1];
      ListedExactly(init, byID);
      assert ids == init + [last];
      FilterConcat(init, [last], Playable(byID));
      FilterOne(last, Playable(byID));
      var kept, before := Filter(ids, Playable(byID)), Filter(init, Playable(byID));
      assert kept == before + if Playable(byID)(last) then [last] else [];
      hide Filter;
    }
  }

  /** Of recordings with one id, the last counts. */
  lemma {:induction false} LastCounts(recs: seq<Recording>, i: nat)
    requires i < |recs| && forall j :: i < j < |recs| ==> recs[j].id != recs[i].id
    ensures recs[i].id in ByID(recs) && ByID(recs)[recs[i].id] == recs[i]
  {
    if i < |recs| - 1 {
      LastCounts(recs[..|recs| - 1], i);
    }
  }

  predicate ReleaseLe(a: Recording, b: Recording) { a.startedAt <= b.startedAt }

  function Mix(id: int, yearDay: int): int { id * 131 + yearDay }

  function MixLe(yearDay: int): (Recording, Recording) -> bool {
    (a: Recording, b: Recording) => Mix(a.id, yearDay) <= Mix(b.id, yearDay)
  }

  predicate IdLe(a: Recording, b: Recording) { a.id <= b.id }

  predicate TitleLe(a: Recording, b: Recording) {
    a.title < b.title || (a.title == b.title && a.subtitle <= b.subtitle)
  }

  /** Release is by when it was recorded, season by title and then subtitle; what ties keeps the list's order. */
  function Arrange(order: Order, list: seq<Recording>, yearDay: int): (r: seq<Recording>)
    ensures multiset(r) == multiset(list)
    ensures order == Release ==> StablySorted(list, r, ReleaseLe)
    ensures order == Season ==> StablySorted(list, r, TitleLe)
    ensures order == Release ==> forall i, j :: 0 <= i < j < |r| ==> r[i].startedAt <= r[j].startedAt
    ensures order == Season ==> forall i, j :: 0 <= i < j < |r| ==>
      r[i].title < r[j].title || (r[i].title == r[j].title && r[i].subtitle <= r[j].subtitle)
  {
    match order
    case AsListed => list
    case Release =>
      StableSortIsStable(list, ReleaseLe);
      StableSort(list, ReleaseLe)
    case Random => StableSort(list, MixLe(yearDay))
    case Season =>
      StableSortIsStable(list, TitleLe);
      StableSort(list, TitleLe)
    case Marathon =>
      var sorted := StableSort(list, TitleLe);
      GroupsFlatten(sorted);
      RoundsPermute(Groups(sorted));
      Rounds(Groups(sorted))
  }

  function Lineup(order: Order, ids: seq<int>, recs: seq<Recording>, yearDay: int): seq<Recording> {
    Arrange(order, Listed(ids, ByID(recs)), yearDay)
  }

  /** The random order does not change from day to day: it is the order of the ids. */
  lemma RandomIsIdOrder(list: seq<Recording>, day: int, otherDay: int)
    ensures Arrange(Random, list, day) == Arrange(Random, list, otherDay) == StableSort(list, IdLe)
    ensures SortedBy(Arrange(Random, list, day), IdLe)
  {
    hide StableSort;
    MixIsId(day);
    MixIsId(otherDay);
    SameOrderSameSort(list, MixLe(day), IdLe);
    SameOrderSameSort(list, MixLe(otherDay), IdLe);
    IdOrder();
    StableSortSorts(list, IdLe);
  }

  lemma IdOrder()
    ensures TotalPreorder(IdLe)
  {
  }

  lemma MixIsId(day: int)
    ensures forall a, b :: MixLe(day)(a, b) <==> IdLe(a, b)
  {
  }

  lemma {:induction false} SameOrderSameSort(list: seq<Recording>, one: (Recording, Recording) -> bool, two: (Recording, Recording) -> bool)
    requires forall a, b :: one(a, b) <==> two(a, b)
    ensures StableSort(list, one) == StableSort(list, two)
  {
    if list != [] {
      SameOrderSameSort(list[1..], one, two);
      SameInsert(list[0], StableSort(list[1..], one), one, two);
    }
  }

  lemma {:induction false} SameInsert(x: Recording, s: seq<Recording>, one: (Recording, Recording) -> bool, two: (Recording, Recording) -> bool)
    requires forall a, b :: one(a, b) <==> two(a, b)
    ensures Insert(x, s, one) == Insert(x, s, two)
  {
    if s != [] { SameInsert(x, s[1..], one, two); }
  }

  // ----- marathon: three of a title, then the next title -----

  /** Neighbours of one title together. */
  function Groups(list: seq<Recording>): (gs: seq<seq<Recording>>)
    ensures forall i :: 0 <= i < |gs| ==> gs[i] != []
    ensures list != [] ==> gs != [] && gs[|gs| - 1][0].title == list[|list| - 1].title
    ensures forall i, r :: 0 <= i < |gs| && r in gs[i] ==> r.title == gs[i][0].title
    ensures forall i, j :: 0 <= i < j == i + 1 < |gs| ==> gs[i][0].title != gs[j][0].title
  {
    if list == [] then []
    else
      var gs: seq<seq<Recording>>, rec := Groups(list[..|list| - 1]), list[|list| - 1];
      if gs == [] || gs[|gs| - 1][0].title != rec.title then gs + [[rec]]
      else gs[..|gs| - 1] + [gs[|gs| - 1] + [rec]]
  }

  lemma {:induction false} GroupsFlatten(list: seq<Recording>)
    ensures Flatten(Groups(list)) == list
  {
    if list != [] {
      var gs: seq<seq<Recording>>, rec := Groups(list[..|list| - 1]), list[|list| - 1];
      GroupsFlatten(list[..|list| - 1]);
      assert list == list[..|list| - 1] + [rec];
      if gs == [] || gs[|gs| - 1][0].title != rec.title {
        assert (gs + [[rec]])[..|gs|] == gs;
      } else {
        var joined := gs[..|gs| - 1] + [gs[|gs| - 1] + [rec]];
        assert joined[..|joined| - 1] == gs[..|gs| - 1];
        assert Flatten(gs) + [rec] == Flatten(gs[..|gs| - 1]) + (gs[|gs| - 1] + [rec]);
      }
    }
  }

  function Three(g: seq<Recording>): seq<Recording> { if |g| <= 3 then g else g[..3] }

  function Later(g: seq<Recording>): seq<Recording> { if |g| <= 3 then [] else g[3..] }

  function Turn(gs: seq<seq<Recording>>): seq<Recording> {
    if gs == [] then [] else Turn(gs[..|gs| - 1]) + Three(gs[|gs| - 1])
  }

  function Remaining(gs: seq<seq<Recording>>): (r: seq<seq<Recording>>)
    ensures |r| == |gs| && forall i :: 0 <= i < |gs| ==> r[i] == Later(gs[i])
  {
    seq(|gs|, i requires 0 <= i < |gs| => Later(gs[i]))
  }

  lemma {:induction false} TurnSplits(gs: seq<seq<Recording>>)
    ensures multiset(Flatten(gs)) == multiset(Turn(gs)) + multiset(Flatten(Remaining(gs)))
    ensures |Flatten(gs)| == |Turn(gs)| + |Flatten(Remaining(gs))|
    ensures Turn(gs) == [] ==> Flatten(gs) == []
  {
    if gs != [] {
      var n := |gs| - 1;
      var g := gs[n];
      TurnSplits(gs[..n]);
      assert Remaining(gs)[..n] == Remaining(gs[..n]);
      MultisetSplit(Turn(gs[..n]), Flatten(Remaining(gs[..n])), Flatten(gs[..n]), g);
    }
  }

  lemma MultisetSplit(done: seq<Recording>, left: seq<Recording>, flat: seq<Recording>, g: seq<Recording>)
    requires multiset(flat) == multiset(done) + multiset(left)
    ensures multiset(flat + g) == multiset(done + Three(g)) + multiset(left + Later(g))
  {
    assert g == Three(g) + Later(g);
  }

  /** Up to three of each group in turn, until none is left. */
  function Rounds(gs: seq<seq<Recording>>): seq<Recording>
    decreases |Flatten(gs)|
  {
    if Turn(gs) == [] then []
    else
      TurnSplits(gs);
      Turn(gs) + Rounds(Remaining(gs))
  }

  lemma {:induction false} RoundsPermute(gs: seq<seq<Recording>>)
    ensures multiset(Rounds(gs)) == multiset(Flatten(gs))
    decreases |Flatten(gs)|
  {
    TurnSplits(gs);
    if Turn(gs) != [] { RoundsPermute(Remaining(gs)); }
  }

  method TakeThree(group: seq<Recording>) returns (out: seq<Recording>, g: seq<Recording>)
    ensures out == Three(group) && g == Later(group)
  {
    out, g := [], group;
    var n := 0;
    while n < 3 && |g| > 0
      invariant n <= 3 && n <= |group| && g == group[n..] && out == group[..n]
    {
      out := out + [g[0]];
      g := g[1..];
      n := n + 1;
    }
  }

  /** One turn round the groups, in place: up to three of each. */
  method TakeTurn(gs: seq<seq<Recording>>, out0: seq<Recording>)
    returns (groups: seq<seq<Recording>>, out: seq<Recording>, left: bool)
    ensures groups == Remaining(gs) && out == out0 + Turn(gs)
    ensures left <==> Turn(gs) != []
  {
    hide Turn, Three, Later;
    groups, out, left := gs, out0, false;
    TurnStep(gs, 0);
    for i := 0 to |groups|
      invariant |groups| == |gs|
      invariant forall j :: 0 <= j < i ==> groups[j] == Later(gs[j])
      invariant forall j :: i <= j < |gs| ==> groups[j] == gs[j]
      invariant out == out0 + Turn(gs[..i])
      invariant left <==> Turn(gs[..i]) != []
    {
      var taken, g := TakeThree(groups[i]);
      TurnStep(gs, i);
      assert out0 + (Turn(gs[..i]) + taken) == out0 + Turn(gs[..i]) + taken;
      out := out + taken;
      if taken != [] {
        left := true;
      }
      groups := groups[i := g];
    }
    assert gs[..|gs|] == gs;
  }

  lemma TurnStep(gs: seq<seq<Recording>>, i: nat)
    requires i <= |gs|
    ensures Turn(gs[..0]) == []
    ensures i < |gs| ==> Turn(gs[..i + 1]) == Turn(gs[..i]) + Three(gs[i])
  {
    if i < |gs| { assert gs[..i + 1][..i] == gs[..i]; }
  }

  method GroupByTitle(list: seq<Recording>) returns (groups: seq<seq<Recording>>)
    ensures groups == Groups(list)
  {
    groups := [];
    for k := 0 to |list|
      invariant groups == Groups(list[..k])
    {
      assert list[..k + 1][..k] == list[..k];
      if |groups| == 0 || groups[|groups| - 1][0].title != list[k].title {
        groups := groups + [[list[k]]];
      } else {
        groups := groups[..|groups| - 1] + [groups[|groups| - 1] + [list[k]]];
      }
    }
    assert list[..|list|] == list;
  }

  method MarathonOrder(list: seq<Recording>) returns (out: seq<Recording>)
    ensures out == Rounds(Groups(list))
  {
    hide Turn, Flatten, Remaining, Groups, Rounds;
    var groups := GroupByTitle(list);
    out := [];
    assert out + Rounds(groups) == Rounds(groups);
    var left := true;
    while left
      invariant out + Rounds(groups) == Rounds(Groups(list))
      invariant !left ==> Rounds(groups) == []
      decreases |Flatten(groups)|, left
    {
      ghost var gs, before := groups, out;
      RoundsStep(gs);
      groups, out, left := TakeTurn(groups, out);
      if !left {
        NothingLeft(gs);
      }
      assert before + (Turn(gs) + Rounds(groups)) == before + Turn(gs) + Rounds(groups);
    }
    assert out + [] == out;
  }

  lemma RoundsStep(gs: seq<seq<Recording>>)
    ensures Rounds(gs) == Turn(gs) + Rounds(Remaining(gs))
    ensures |Flatten(gs)| == |Turn(gs)| + |Flatten(Remaining(gs))|
  {
    TurnSplits(gs);
    if Turn(gs) == [] { NothingLeft(gs); }
  }

  lemma NothingLeft(gs: seq<seq<Recording>>)
    requires Turn(gs) == []
    ensures Rounds(gs) == Rounds(Remaining(gs)) == []
  {
    TurnSplits(gs);
    TurnSplits(Remaining(gs));
  }

  // ----- where each recording comes in a marathon -----

  function Least(a: nat, b: nat): nat { if a < b then a else b }

  /** How many recordings the first upTo groups have among their first n each. */
  function Among(gs: seq<seq<Recording>>, upTo: nat, n: nat): nat
    requires upTo <= |gs|
  {
    if upTo == 0 then 0 else Among(gs, upTo - 1, n) + Least(|gs[upTo - 1]|, n)
  }

  /**
    Recording k of group i plays in turn k / 3: after all that groups had for
    the turns before, and after what the groups before have for this one.
  */
  function PlaceOf(gs: seq<seq<Recording>>, i: nat, k: nat): int
    requires i < |gs|
  {
    var before := 3 * (k / 3);
    Among(gs, |gs|, before) + (Among(gs, i, before + 3) - Among(gs, i, before)) + k % 3
  }

  lemma {:induction false} AmongRemaining(gs: seq<seq<Recording>>, upTo: nat, n: nat)
    requires upTo <= |gs|
    ensures Among(Remaining(gs), upTo, n) == Among(gs, upTo, n + 3) - Among(gs, upTo, 3)
  {
    if upTo > 0 { AmongRemaining(gs, upTo - 1, n); }
  }

  lemma {:induction false} NoneAmong(gs: seq<seq<Recording>>, upTo: nat)
    requires upTo <= |gs|
    ensures Among(gs, upTo, 0) == 0
  {
    if upTo > 0 { NoneAmong(gs, upTo - 1); }
  }

  lemma {:induction false} AmongPrefix(gs: seq<seq<Recording>>, m: nat, upTo: nat, n: nat)
    requires upTo <= m <= |gs|
    ensures Among(gs[..m], upTo, n) == Among(gs, upTo, n)
  {
    if upTo > 0 { AmongPrefix(gs, m, upTo - 1, n); }
  }

  lemma {:induction false} TurnSize(gs: seq<seq<Recording>>)
    ensures |Turn(gs)| == Among(gs, |gs|, 3)
  {
    if gs != [] {
      var n := |gs| - 1;
      TurnSize(gs[..n]);
      AmongPrefix(gs, n, n, 3);
    }
  }

  lemma {:induction false} PlaceInTurn(gs: seq<seq<Recording>>, i: nat, k: nat)
    requires i < |gs| && k < |gs[i]| && k < 3
    ensures Among(gs, i, 3) + k < |Turn(gs)| && Turn(gs)[Among(gs, i, 3) + k] == gs[i][k]
  {
    var n := |gs| - 1;
    var front := Turn(gs[..n]);
    assert Turn(gs) == front + Three(gs[n]);
    TurnSize(gs[..n]);
    AmongPrefix(gs, n, n, 3);
    AmongPrefix(gs, n, i, 3);
    hide Turn, Among;
    if i < n {
      PlaceInTurn(gs[..n], i, k);
    }
  }

  /** In a marathon every recording plays where its place in its group says. */
  lemma {:induction false} PlaceInMarathon(gs: seq<seq<Recording>>, i: nat, k: nat)
    requires i < |gs| && k < |gs[i]|
    ensures 0 <= PlaceOf(gs, i, k) < |Rounds(gs)| && Rounds(gs)[PlaceOf(gs, i, k)] == gs[i][k]
    decreases k
  {
    hide PlaceOf, Among, Turn, Remaining, Rounds;
    var rest := Remaining(gs);
    PlaceInTurn(gs, i, 0);
    TurnFirst(gs);
    if k < 3 {
      FirstPlace(gs, i, k);
      PlaceInTurn(gs, i, k);
    } else {
      assert rest[i] == gs[i][3..];
      PlaceLater(gs, i, k);
      TurnSize(gs);
      PlaceInMarathon(rest, i, k - 3);
    }
  }

  lemma TurnFirst(gs: seq<seq<Recording>>)
    requires Turn(gs) != []
    ensures Rounds(gs) == Turn(gs) + Rounds(Remaining(gs))
  {
  }

  lemma FirstPlace(gs: seq<seq<Recording>>, i: nat, k: nat)
    requires i < |gs| && k < 3
    ensures PlaceOf(gs, i, k) == Among(gs, i, 3) + k
  {
    NoneAmong(gs, |gs|);
    NoneAmong(gs, i);
    hide Among;
    assert k / 3 == 0 && k % 3 == k;
  }

  lemma Thirds(k: nat)
    requires k >= 3
    ensures k / 3 == (k - 3) / 3 + 1 && k % 3 == (k - 3) % 3
  {
  }

  lemma PlaceLater(gs: seq<seq<Recording>>, i: nat, k: nat)
    requires i < |gs| && k >= 3
    ensures PlaceOf(gs, i, k) == Among(gs, |gs|, 3) + PlaceOf(Remaining(gs), i, k - 3)
  {
    hide Among, Remaining;
    Thirds(k);
    var before := 3 * ((k - 3) / 3);
    AmongRemaining(gs, |gs|, before);
    AmongRemaining(gs, i, before);
    AmongRemaining(gs, i, before + 3);
  }
}
