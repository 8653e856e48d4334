/** The clean-up as it runs, its dry run, and why the dry run tells the truth. */
module StorageCleanUp {
  import opened Collections
  import opened Sorting
  import opened StorageRules
  import opened Storage

  lemma DropValid(c: Catalog, gone: set<int>)
    requires c.Valid()
    ensures c.Drop(gone).Valid()
  {
    var d := c.Drop(gone);
    FilterDistinct(c.recs, Stays(gone));
    forall r | r in d.recs ensures FileSize(d.disk, r.path) == FileSize(c.disk, r.path) {
      FileStays(c, gone, r);
    }
    SamePaths(d.disk, c.disk, d.recs);
    TotalSplit(c.disk, c.recs, GoneIn(gone));
    FilterSame(c.recs, (r: Recording) => !GoneIn(gone)(r), Stays(gone));
    FilterSame(c.recs, r => !GoneIn(gone)(r), Stays(gone));
  }

  lemma {:induction false} IdsDiffer(recs: seq<Recording>, a: Recording, b: Recording)
    requires DistinctRows(recs) && a in recs && b in recs && a.id == b.id
    ensures a == b
  {
  }

  /** The rows with the ids of a filtered list are that list. */
  lemma OfFiltered(c: Catalog, p: Recording -> bool)
    requires DistinctRows(c.recs)
    ensures c.Of(IdSet(Filter(c.recs, p))) == Filter(c.recs, p)
  {
    var kept := Filter(c.recs, p);
    forall r | r in c.recs ensures GoneIn(IdSet(kept))(r) <==> p(r) {
      if r.id in IdSet(kept) {
        var o :| o in kept && o.id == r.id;
        IdsDiffer(c.recs, o, r);
      }
    }
    FilterSame(c.recs, GoneIn(IdSet(kept)), p);
  }

  /** What every victim list of a clean-up is: rows that may go, each once. */
  ghost predicate Victims(c: Catalog, list: seq<Recording>, now: int, fav: set<int>) {
    && DistinctRows(list)
    && (forall r :: r in list ==> r in c.recs && Deletable(c.disk, r, now, fav))
    && Total(c.disk, list) <= Total(c.disk, c.recs)
  }

  lemma FilteredVictims(c: Catalog, p: Recording -> bool, now: int, fav: set<int>)
    requires DistinctRows(c.recs) && forall r :: r in c.recs && p(r) ==> Deletable(c.disk, r, now, fav)
    ensures Victims(c, Filter(c.recs, p), now, fav)
  {
    FilterDistinct(c.recs, p);
    TotalSplit(c.disk, c.recs, p);
  }

  function MayGoAged(disk: Disk, now: int, fav: set<int>, cutoff: int): Recording -> bool {
    (r: Recording) => Deletable(disk, r, now, fav) && r.Aged(cutoff)
  }

  lemma DaysVictimsAre(c: Catalog, now: int, days: int, fav: set<int>)
    requires DistinctRows(c.recs)
    ensures days > 0 ==> DaysVictims(c, now, days, fav) == Filter(c.recs, MayGoAged(c.disk, now, fav, Cutoff(now, days)))
    ensures Victims(c, DaysVictims(c, now, days, fav), now, fav)
  {
    var p := MayGoAged(c.disk, now, fav, Cutoff(now, days));
    FilterFilter(c.recs, CanGo(c.disk, now, fav), WatchedBefore(Cutoff(now, days)), p);
    FilteredVictims(c, p, now, fav);
  }

  lemma RoomVictimsAre(c: Catalog, now: int, fav: set<int>)
    requires DistinctRows(c.recs)
    ensures RoomVictims(c, now, fav) == StableSort(Cleanable(c.disk, c.recs, now, fav), WatchedLe)
    ensures Victims(c, RoomVictims(c, now, fav), now, fav)
  {
    var pool := Cleanable(c.disk, c.recs, now, fav);
    FilterSame(pool, IsFinished(), _ => true);
    FilterAll(pool, _ => true);
    FilteredVictims(c, CanGo(c.disk, now, fav), now, fav);
    SortedVictims(c, pool, now, fav);
  }

  lemma SortedVictims(c: Catalog, list: seq<Recording>, now: int, fav: set<int>)
    requires Victims(c, list, now, fav)
    ensures Victims(c, StableSort(list, WatchedLe), now, fav)
  {
    var sorted := StableSort(list, WatchedLe);
    TotalSorted(c.disk, list);
    SameElements(list, sorted);
    PermutedDistinct(list, sorted);
  }

  lemma SameElements(a: seq<Recording>, b: seq<Recording>)
    requires multiset(a) == multiset(b)
    ensures forall r :: r in a <==> r in b
  {
    forall r ensures r in a <==> r in b {
      assert r in multiset(a) <==> r in multiset(b);
    }
  }

  lemma PermutedDistinct(a: seq<Recording>, b: seq<Recording>)
    requires multiset(a) == multiset(b) && DistinctRows(a)
    ensures DistinctRows(b)
  {
    SameElements(a, b);
    forall i, j | 0 <= i < j < |b| ensures b[i].id != b[j].id && b[i].path != b[j].path {
      TwiceInList(b, i, j);
      OnceInDistinct(a, b[i]);
      var p :| 0 <= p < |a| && a[p] == b[i];
      assert b[j] in a;
      var q :| 0 <= q < |a| && a[q] == b[j];
    }
  }

  lemma TwiceInList(b: seq<Recording>, i: nat, j: nat)
    requires i < j < |b|
    ensures b[i] == b[j] ==> multiset(b)[b[i]] >= 2
  {
    assert b == b[..i] + [b[i]] + b[i + 1..j] + [b[j]] + b[j + 1..];
  }

  lemma {:induction false} OnceInDistinct(a: seq<Recording>, r: Recording)
    requires DistinctRows(a)
    ensures multiset(a)[r] <= 1
  {
    if a != [] {
      assert a == [a[0]] + a[1..];
      OnceInDistinct(a[1..], r);
      if a[0] == r {
        assert forall x :: x in a[1..] ==> x.id != r.id;
        assert r !in a[1..];
      }
    }
  }

  lemma PrefixIds(list: seq<Recording>, i: nat)
    requires DistinctRows(list) && i < |list|
    ensures IdSet(list[..i + 1]) == IdSet(list[..i]) + {list[i].id}
    ensures list[i].id !in IdSet(list[..i])
  {
    assert list[..i + 1] == list[..i] + [list[i]];
  }

  /** What one more removal of a listed victim does. */
  lemma NextVictim(c: Catalog, list: seq<Recording>, i: nat, now: int, fav: set<int>)
    requires c.Valid() && Victims(c, list, now, fav) && i < |list|
    ensures var d := c.Drop(IdSet(list[..i]));
            && d.Valid() && Row(d.recs, list[i].id) == Some(list[i])
            && Deletable(d.disk, list[i], now, fav)
            && FileSize(d.disk, list[i].path) == FileSize(c.disk, list[i].path)
            && d.Drop({list[i].id}) == c.Drop(IdSet(list[..i + 1]))
  {
    var gone, rec := IdSet(list[..i]), list[i];
    PrefixIds(list, i);
    assert rec in list;
    DropValid(c, gone);
    FileStays(c, gone, rec);
    DropMore(c, gone, rec);
    RowOf(c.Drop(gone).recs, rec);
  }

  /** One more victim at the end of those already gone. */
  lemma TakenNext(c: Catalog, taken: seq<Recording>, rec: Recording, now: int, fav: set<int>)
    requires c.Valid() && Victims(c, taken + [rec], now, fav)
    ensures var d := c.Drop(IdSet(taken));
            && d.Valid() && Row(d.recs, rec.id) == Some(rec) && Deletable(d.disk, rec, now, fav)
            && d.Drop({rec.id}) == c.Drop(IdSet(taken + [rec])) && c.Drop(IdSet(taken + [rec])).Valid()
  {
    var list := taken + [rec];
    assert list[..|taken|] == taken && list[..|taken| + 1] == list;
    hide Deletable, Victims, Catalog.Valid, Catalog.Drop, IdSet, Row;
    NextVictim(c, list, |taken|, now, fav);
    DropValid(c, IdSet(list));
  }

  lemma NothingDropped(c: Catalog)
    requires DistinctRows(c.recs)
    ensures c.Drop({}) == c && IdSet([]) == {}
  {
    assert IdSet([]) == {};
    FilterSame(c.recs, Stays({}), _ => true);
    FilterAll(c.recs, _ => true);
    FilterNone(c.recs, GoneIn({}));
  }

  lemma TotalPrefix(disk: Disk, list: seq<Recording>, i: nat)
    requires i <= |list|
    ensures Total(disk, list[..0]) == 0 && Total(disk, list[..i]) <= Total(disk, list)
    ensures i < |list| ==> Total(disk, list[..i + 1]) == Total(disk, list[..i]) + FileSize(disk, list[i].path)
  {
    assert list == list[..i] + list[i..];
    TotalAppend(disk, list[..i], list[i..]);
    if i < |list| {
      assert list[..i + 1] == list[..i] + [list[i]];
      TotalAppend(disk, list[..i], [list[i]]);
      OneTotal(disk, list[i]);
    }
  }

  lemma {:induction false} NeededIs(disk: Disk, victims: seq<Recording>, short: int, n: nat)
    requires n <= |victims| && Total(disk, victims[..n]) >= short
    requires forall k :: 0 <= k < n ==> Total(disk, victims[..k]) < short
    ensures Needed(disk, victims, short) == n
  {
    NeededIsMinimal(disk, victims, short);
    TotalPrefix(disk, victims, n);
  }

  /** The bytes of all the victims, summed as uint64. */
  method CouldFree(disk: Disk, victims: seq<Recording>) returns (could: nat)
    requires Total(disk, victims) <= MAX_U64
    ensures could == Total(disk, victims)
  {
    hide Total;
    could := 0;
    NoTotal(disk);
    for i := 0 to |victims|
      invariant could == Total(disk, victims[..i])
    {
      TotalPrefix(disk, victims, i);
      TotalPrefix(disk, victims, i + 1);
      could := Plus(could, FileSize(disk, victims[i].path));
    }
    assert victims[..|victims|] == victims;
  }

  class Library {
    var recs: seq<Recording>
    var disk: Disk
    var free: nat

    function View(): Catalog
      reads this
    {
      Catalog(recs, disk, free)
    }

    /** Reads the row again, and unlinks its file and deletes it when it may still go. */
    method Remove(rec: Recording, now: int, fav: set<int>) returns (freed: nat)
      requires View().Valid()
      modifies this
      ensures var row := Row(old(recs), rec.id);
              if row.Some? && Deletable(old(disk), row.value, now, fav)
              then View() == old(View()).Drop({rec.id}) && freed == FileSize(old(disk), row.value.path)
              else View() == old(View()) && freed == 0
    {
      var row := Row(recs, rec.id);
      RowIn(recs, rec.id);
      if row.None? || !Deletable(disk, row.value, now, fav) {
        return 0;
      }
      ghost var c := View();
      OnlyOne(recs, row.value);
      OneTotal(disk, row.value);
      assert PathSet([row.value]) == {row.value.path};
      freed := FileSize(disk, row.value.path);
      disk, free := disk - {row.value.path}, free + freed;
      recs := Filter(recs, Stays({row.value.id}));
    }

    /** The hourly clean-up. */
    method Tidy(now: int, days: int, makeRoom: bool, reserve: nat, fav: set<int>)
      requires View().Valid()
      modifies this
      ensures View().Valid()
      ensures View() == AfterDays(old(View()), now, days, fav)
                          .Drop(IdSet(RoomTaken(AfterDays(old(View()), now, days, fav), makeRoom, reserve, now, fav)))
    {
      if days > 0 {
        RemoveAged(now, days, fav);
      } else {
        NothingDropped(View());
      }
      if reserve > 0 {
        var freed := MakeRoom(reserve, makeRoom, now, fav);
      } else {
        NothingDropped(View());
      }
    }

    method RemoveAged(now: int, days: int, fav: set<int>)
      requires View().Valid() && days > 0
      modifies this
      ensures View().Valid() && View() == AfterDays(old(View()), now, days, fav)
    {
      hide Recording.Finished, Recording.Aged, Recording.WatchedSince, Total, Filter, Deletable, IdSet, Row;
      ghost var c := View();
      var cutoff := now - days * 24 * HOUR;
      var list := Cleanable(disk, recs, now, fav);
      ghost var victims: seq<Recording> := [];
      NothingDropped(c);
      DaysVictimsAre(c, now, days, fav);
      FilterNothing(cutoff);
      for i := 0 to |list|
        invariant victims == Filter(list[..i], WatchedBefore(cutoff))
        invariant View() == c.Drop(IdSet(victims)) && View().Valid()
      {
        AgedStep(c, list, i, cutoff, now, days, fav);
        if list[i].Aged(cutoff) {
          TakenNext(c, victims, list[i], now, fav);
          var freed := Remove(list[i], now, fav);
          victims := victims + [list[i]];
        }
      }
      assert list[..|list|] == list;
    }

    /** Frees need bytes from the oldest watched recordings on, or removes nothing. */
    method MakeRoom(need: nat, makeRoom: bool, now: int, fav: set<int>) returns (freed: nat)
      requires View().Valid()
      modifies this
      ensures View().Valid()
      ensures View() == old(View()).Drop(IdSet(RoomTaken(old(View()), makeRoom, need, now, fav)))
      ensures freed == Total(old(disk), RoomTaken(old(View()), makeRoom, need, now, fav))
    {
      hide Recording.Finished, Filter, Deletable, Total, StableSort, Needed;
      ghost var c := View();
      NothingDropped(c);
      NoTotal(c.disk);
      if !makeRoom || !BelowReserve(free, need) {
        return 0;
      }
      var short := need - free;
      var victims := RoomVictims(View(), now, fav);
      RoomVictimsAre(c, now, fav);
      var could := CouldFree(disk, victims);
      if could < short {
        return 0;
      }
      freed := RemoveUntil(victims, short, now, fav);
    }

    /** Removes victims in order until short bytes are freed. */
    method RemoveUntil(victims: seq<Recording>, short: nat, now: int, fav: set<int>) returns (freed: nat)
      requires View().Valid() && Victims(View(), victims, now, fav) && Total(disk, victims) >= short
      modifies this
      ensures View().Valid()
      ensures var taken := victims[..Needed(old(disk), victims, short)];
              View() == old(View()).Drop(IdSet(taken)) && freed == Total(old(disk), taken)
    {
      hide Recording.Finished, Filter, Deletable, Total, StableSort, Needed, Catalog.Drop, DistinctRows, Catalog.Valid;
      ghost var c := View();
      ValidRows(c);
      NothingDropped(c);
      NoTotal(c.disk);
      freed := 0;
      for i := 0 to |victims|
        invariant View() == c.Drop(IdSet(victims[..i])) && View().Valid()
        invariant freed == Total(c.disk, victims[..i])
        invariant forall k :: 0 <= k < i ==> Total(c.disk, victims[..k]) < short
      {
        if freed >= short {
          NeededIs(c.disk, victims, short, i);
          return;
        }
        NextVictim(c, victims, i, now, fav);
        TotalPrefix(c.disk, victims, i);
        TotalPrefix(c.disk, victims, i + 1);
        DropValid(c, IdSet(victims[..i + 1]));
        var more := Remove(victims[i], now, fav);
        freed := Plus(freed, more);
      }
      assert victims[..|victims|] == victims;
      NeededIs(c.disk, victims, short, |victims|);
    }
  }

  lemma ValidRows(c: Catalog)
    requires c.Valid()
    ensures DistinctRows(c.recs) && Total(c.disk, c.recs) <= MAX_U64
  {
  }

  lemma NoTotal(disk: Disk)
    ensures Total(disk, []) == 0
  {
  }

  lemma FilterNothing(cutoff: int)
    ensures Filter([], WatchedBefore(cutoff)) == []
  {
  }

  lemma AgedStep(c: Catalog, list: seq<Recording>, i: nat, cutoff: int, now: int, days: int, fav: set<int>)
    requires c.Valid() && list == Cleanable(c.disk, c.recs, now, fav) && i < |list|
    ensures var before, here := Filter(list[..i], WatchedBefore(cutoff)), Filter(list[..i + 1], WatchedBefore(cutoff));
            && here == (if list[i].Aged(cutoff) then before + [list[i]] else before)
            && Victims(c, here, now, fav)
  {
    hide Recording.Finished, Recording.Aged, Recording.WatchedSince, Total, Deletable, Filter;
    assert list[..i + 1] == list[..i] + [list[i]];
    var aged := WatchedBefore(cutoff);
    FilterConcat(list[..i], [list[i]], aged);
    FilterOne(list[i], WatchedBefore(cutoff));
    FilteredVictims(c, CanGo(c.disk, now, fav), now, fav);
    PrefixVictims(c, list, i + 1, now, fav);
    FilterDistinct(list[..i + 1], aged);
    TotalSplit(c.disk, list[..i + 1], aged);
    assert Filter(list[..i], aged) + [] == Filter(list[..i], aged);
  }

  lemma PrefixVictims(c: Catalog, list: seq<Recording>, i: nat, now: int, fav: set<int>)
    requires Victims(c, list, now, fav) && i <= |list|
    ensures Victims(c, list[..i], now, fav)
  {
    TotalPrefix(c.disk, list, i);
  }

  // ----- the dry run -----

  datatype Rule = WatchedDays | MakeRoom

  /** remove lists what would go now; covers is false when making room would not free enough. */
  datatype Plan = Plan(remove: seq<(int, Rule)>, short: nat, covers: bool)

  function Listed(plan: Plan): set<int> {
    set item | item in plan.remove :: item.0
  }

  /** The order of removal is the order of the sorted victims. */
  function Items(recs: seq<Recording>, rule: Rule): (r: seq<(int, Rule)>)
    ensures |r| == |recs| && forall i :: 0 <= i < |r| ==> r[i] == (recs[i].id, rule)
  {
    seq(|recs|, i requires 0 <= i < |recs| => (recs[i].id, rule))
  }

  lemma ItemsAppend(recs: seq<Recording>, i: nat, rule: Rule)
    requires i < |recs|
    ensures Items(recs[..i + 1], rule) == Items(recs[..i], rule) + [(recs[i].id, rule)]
    ensures Items(recs[..0], rule) == []
  {
  }

  /** What the days rule would free, in the order it is listed. */
  method ListAged(disk: Disk, aged: seq<Recording>) returns (items: seq<(int, Rule)>, gone: set<int>, freed: nat)
    requires Total(disk, aged) <= MAX_U64
    ensures items == Items(aged, WatchedDays) && gone == IdSet(aged) && freed == Total(disk, aged)
  {
    hide Total;
    items, gone, freed := [], {}, 0;
    NoTotal(disk);
    for i := 0 to |aged|
      invariant items == Items(aged[..i], WatchedDays) && gone == IdSet(aged[..i]) && freed == Total(disk, aged[..i])
    {
      ItemsAppend(aged, i, WatchedDays);
      IdsAppend(aged, i);
      TotalPrefix(disk, aged, i);
      TotalPrefix(disk, aged, i + 1);
      items := items + [(aged[i].id, WatchedDays)];
      gone := gone + {aged[i].id};
      freed := Plus(freed, FileSize(disk, aged[i].path));
    }
    assert aged[..|aged|] == aged;
  }

  lemma IdsAppend(recs: seq<Recording>, i: nat)
    requires i < |recs|
    ensures IdSet(recs[..i + 1]) == IdSet(recs[..i]) + {recs[i].id}
  {
    assert recs[..i + 1] == recs[..i] + [recs[i]];
  }

  /** The victims of making room, from the first until enough is freed. */
  method ListRoom(disk: Disk, victims: seq<Recording>, short: nat) returns (items: seq<(int, Rule)>)
    requires Total(disk, victims) <= MAX_U64 && Total(disk, victims) >= short
    ensures items == Items(victims[..Needed(disk, victims, short)], MakeRoom)
  {
    hide Total, Needed;
    items := [];
    var freed := 0;
    NoTotal(disk);
    for i := 0 to |victims|
      invariant items == Items(victims[..i], MakeRoom) && freed == Total(disk, victims[..i])
      invariant forall k :: 0 <= k < i ==> Total(disk, victims[..k]) < short
    {
      if freed >= short {
        NeededIs(disk, victims, short, i);
        return;
      }
      ItemsAppend(victims, i, MakeRoom);
      TotalPrefix(disk, victims, i);
      TotalPrefix(disk, victims, i + 1);
      items := items + [(victims[i].id, MakeRoom)];
      freed := Plus(freed, FileSize(disk, victims[i].path));
    }
    assert victims[..|victims|] == victims;
    NeededIs(disk, victims, short, |victims|);
  }

  /** The plan lists, in order, the days rule's victims and then what making room takes after it. */
  ghost predicate Truthful(plan: Plan, c: Catalog, now: int, days: int, makeRoom: bool, reserve: nat, fav: set<int>) {
    var after := AfterDays(c, now, days, fav);
    && plan.remove == Items(StableSort(DaysVictims(c, now, days, fav), WatchedLe), WatchedDays)
                      + Items(RoomTaken(after, makeRoom, reserve, now, fav), MakeRoom)
    && plan.covers == !(makeRoom && BelowReserve(after.free, reserve)
                        && Total(after.disk, RoomVictims(after, now, fav)) < reserve - after.free)
    && plan.short == if makeRoom && BelowReserve(after.free, reserve) then reserve - after.free else 0
  }

  method PlanRoom(disk: Disk, items: seq<(int, Rule)>, victims: seq<Recording>, short: nat) returns (plan: Plan)
    requires Total(disk, victims) <= MAX_U64
    ensures plan ==
      if Total(disk, victims) < short then Plan(items, short, false)
      else Plan(items + Items(victims[..Needed(disk, victims, short)], MakeRoom), short, true)
  {
    hide Total, Needed, Items;
    var could := CouldFree(disk, victims);
    if could < short {
      plan := Plan(items, short, false);
    } else {
      var room := ListRoom(disk, victims, short);
      plan := Plan(items + room, short, true);
    }
  }

  method BuildPreview(c: Catalog, now: int, days: int, makeRoom: bool, reserve: nat, protect: bool, favorites: set<int>)
    returns (plan: Plan)
    requires c.Valid()
    ensures Truthful(plan, c, now, days, makeRoom, reserve, if protect then favorites else {})
  {
    hide Total, Needed, Filter, StableSort, Deletable, RoomVictims, Items, IdSet, Catalog.Drop, Cleanable,
      RoomOrder;
    var fav := favorites;
    if !protect {
      fav := {};
    }
    var pool: seq<Recording> := [];
    if days > 0 || (makeRoom && BelowReserve(c.free, reserve)) {
      pool := Cleanable(c.disk, c.recs, now, fav);
    }
    var items: seq<(int, Rule)>, gone: set<int>, daysFreed := [], {}, 0;
    ghost var aged := DaysVictims(c, now, days, fav);
    DaysVictimsAre(c, now, days, fav);
    SortedVictims(c, aged, now, fav);
    NoAged(c.disk);
    if days > 0 {
      var cutoff := now - days * 24 * HOUR;
      var sorted := StableSort(Filter(pool, WatchedBefore(cutoff)), WatchedLe);
      items, gone, daysFreed := ListAged(c.disk, sorted);
    }
    SortedIds(aged);
    ghost var after := AfterDays(c, now, days, fav);
    DaysFree(c, now, days, fav);
    var freeAfterDays := FreedSpace(c.free, daysFreed);
    assert freeAfterDays == after.free;
    NoItems();
    assert items + [] == items;
    plan := Plan(items, 0, true);
    if makeRoom && BelowReserve(freeAfterDays, reserve) {
      var short := reserve - freeAfterDays;
      var victims := Filter(RoomOrder(pool), Stays(gone));
      SameRoom(c, now, days, fav);
      assert victims == RoomVictims(after, now, fav);
      SameNeeded(c.disk, after.disk, victims, short);
      plan := PlanRoom(c.disk, items, victims, short);
    }
  }

  lemma NoItems()
    ensures forall rule :: Items([], rule) == []
    ensures IdSet([]) == {}
  {
  }

  lemma NoAged(disk: Disk)
    ensures StableSort([], WatchedLe) == [] && IdSet([]) == {} && Total(disk, []) == 0
  {
  }

  lemma SortedIds(list: seq<Recording>)
    ensures IdSet(StableSort(list, WatchedLe)) == IdSet(list)
  {
    SameElements(list, StableSort(list, WatchedLe));
  }

  /** The days rule frees what its victims' files hold. */
  lemma DaysFree(c: Catalog, now: int, days: int, fav: set<int>)
    requires c.Valid()
    ensures var victims := DaysVictims(c, now, days, fav);
            && AfterDays(c, now, days, fav).free == c.free + Total(c.disk, victims) <= MAX_U64
            && Total(c.disk, StableSort(victims, WatchedLe)) == Total(c.disk, victims)
  {
    var victims := DaysVictims(c, now, days, fav);
    DaysVictimsAre(c, now, days, fav);
    TotalSorted(c.disk, victims);
    if days > 0 {
      OfFiltered(c, MayGoAged(c.disk, now, fav, Cutoff(now, days)));
    } else {
      NothingDropped(c);
    }
  }

  lemma {:induction false} SameNeeded(disk: Disk, other: Disk, list: seq<Recording>, short: int)
    requires forall r :: r in list ==> FileSize(disk, r.path) == FileSize(other, r.path)
    ensures Needed(disk, list, short) == Needed(other, list, short)
    ensures Total(disk, list) == Total(other, list)
  {
    if list != [] {
      SameNeeded(disk, other, list[1..], short - FileSize(disk, list[0].path));
    }
  }

  /** Leaving out what the days rule took gives the victims making room finds afterwards. */
  lemma SameRoom(c: Catalog, now: int, days: int, fav: set<int>)
    requires c.Valid()
    ensures var gone := IdSet(DaysVictims(c, now, days, fav));
            var victims := Filter(RoomOrder(Cleanable(c.disk, c.recs, now, fav)), Stays(gone));
            var after := AfterDays(c, now, days, fav);
            && victims == RoomVictims(after, now, fav)
            && Total(c.disk, victims) <= MAX_U64
            && forall r :: r in victims ==> FileSize(c.disk, r.path) == FileSize(after.disk, r.path)
  {
    hide Total, StableSort, Deletable, WatchedLe;
    var gone := IdSet(DaysVictims(c, now, days, fav));
    var after := AfterDays(c, now, days, fav);
    var pool := Cleanable(c.disk, c.recs, now, fav);
    RoomVictimsAre(c, now, fav);
    DropValid(c, gone);
    RoomVictimsAre(after, now, fav);
    WatchedOrder();
    PoolHasNoTies(c, now, fav);
    SortFilter(pool, Stays(gone), WatchedLe);
    SamePool(c, gone, now, fav);
    var victims := RoomVictims(after, now, fav);
    forall r | r in victims ensures FileSize(c.disk, r.path) == FileSize(after.disk, r.path) {
      FileStays(c, gone, r);
    }
    SamePaths(c.disk, after.disk, victims);
  }

  lemma PoolHasNoTies(c: Catalog, now: int, fav: set<int>)
    requires c.Valid()
    ensures NoTies(Cleanable(c.disk, c.recs, now, fav), WatchedLe)
  {
    var pool := Cleanable(c.disk, c.recs, now, fav);
    forall a, b | a in pool && b in pool && WatchedLe(a, b) && WatchedLe(b, a) ensures a == b {
      IdsDiffer(c.recs, a, b);
    }
  }

  lemma SamePool(c: Catalog, gone: set<int>, now: int, fav: set<int>)
    requires c.Valid()
    ensures Filter(Cleanable(c.disk, c.recs, now, fav), Stays(gone)) ==
            Cleanable(c.Drop(gone).disk, c.Drop(gone).recs, now, fav)
  {
    var d := c.Drop(gone);
    forall r | r in d.recs ensures Deletable(d.disk, r, now, fav) <==> Deletable(c.disk, r, now, fav) {
      FileStays(c, gone, r);
    }
    FilterSame(d.recs, CanGo(d.disk, now, fav), CanGo(c.disk, now, fav));
    var both := (r: Recording) => Deletable(c.disk, r, now, fav) && r.id !in gone;
    FilterFilter(c.recs, CanGo(c.disk, now, fav), Stays(gone), both);
    FilterFilter(c.recs, Stays(gone), CanGo(c.disk, now, fav), both);
  }

  // ----- the dry run tells the truth -----

  lemma ItemIds(recs: seq<Recording>, rule: Rule)
    ensures (set item | item in Items(recs, rule) :: item.0) == IdSet(recs)
  {
    var items := Items(recs, rule);
    forall id ensures id in (set item | item in items :: item.0) <==> id in IdSet(recs) {
      if id in IdSet(recs) {
        var r :| r in recs && r.id == id;
        var i :| 0 <= i < |recs| && recs[i] == r;
        assert items[i] == (id, rule);
      }
    }
  }

  /** From one catalog the ids listed for now are those the clean-up removes, and no others. */
  lemma PreviewTellsTheTruth(plan: Plan, c: Catalog, now: int, days: int, makeRoom: bool, reserve: nat, fav: set<int>)
    requires c.Valid() && Truthful(plan, c, now, days, makeRoom, reserve, fav)
    ensures Listed(plan) == CleanUp(c, now, days, makeRoom, reserve, fav)
    ensures var after := AfterDays(c, now, days, fav);
            var end := after.Drop(IdSet(RoomTaken(after, makeRoom, reserve, now, fav)));
            IdSet(end.recs) == IdSet(c.recs) - Listed(plan)
    ensures forall id :: id in Listed(plan) ==> exists r :: r in c.recs && r.id == id && Deletable(c.disk, r, now, fav)
  {
    hide Total, StableSort, Needed, Deletable, RoomVictims, BelowReserve;
    var aged, after := DaysVictims(c, now, days, fav), AfterDays(c, now, days, fav);
    var room := RoomTaken(after, makeRoom, reserve, now, fav);
    var sorted := StableSort(aged, WatchedLe);
    ItemIds(sorted, WatchedDays);
    ItemIds(room, MakeRoom);
    SortedIds(aged);
    assert Listed(plan) == IdSet(sorted) + IdSet(room) by {
      ListedParts(plan, Items(sorted, WatchedDays), Items(room, MakeRoom));
    }
    DroppedIds(c, IdSet(aged));
    DroppedIds(after, IdSet(room));
    DaysVictimsAre(c, now, days, fav);
    DropValid(c, IdSet(aged));
    RoomVictimsAre(after, now, fav);
    forall id | id in Listed(plan) ensures exists r :: r in c.recs && r.id == id && Deletable(c.disk, r, now, fav) {
      if id in IdSet(aged) {
        var r :| r in aged && r.id == id;
      } else {
        var r :| r in room && r.id == id;
        FromRoom(c, IdSet(aged), r, now, fav);
      }
    }
  }

  lemma FromRoom(c: Catalog, gone: set<int>, r: Recording, now: int, fav: set<int>)
    requires c.Valid() && r in c.Drop(gone).recs && Deletable(c.Drop(gone).disk, r, now, fav)
    ensures r in c.recs && Deletable(c.disk, r, now, fav)
  {
    FileStays(c, gone, r);
  }

  lemma ListedParts(plan: Plan, a: seq<(int, Rule)>, b: seq<(int, Rule)>)
    requires plan.remove == a + b
    ensures Listed(plan) == (set item | item in a :: item.0) + (set item | item in b :: item.0)
  {
    assert forall item :: item in a + b <==> item in a || item in b;
  }

  lemma DroppedIds(c: Catalog, gone: set<int>)
    ensures IdSet(c.Drop(gone).recs) == IdSet(c.recs) - gone
  {
    var d := c.Drop(gone);
    forall id ensures id in IdSet(d.recs) <==> id in IdSet(c.recs) - gone {
      if id in IdSet(c.recs) - gone {
        var r :| r in c.recs && r.id == id;
        assert r in d.recs;
      }
    }
  }

  /** Making room frees the shortfall with the shortest run of the oldest watched, and does so exactly when they can. */
  lemma RoomIsAllOrNothing(c: Catalog, makeRoom: bool, need: nat, now: int, fav: set<int>)
    requires c.Valid()
    ensures var taken, victims := RoomTaken(c, makeRoom, need, now, fav), RoomVictims(c, now, fav);
            && (taken != [] <==> makeRoom && c.free < need && c.Drop(IdSet(victims)).free >= need)
            && (taken != [] ==> taken == victims[..|taken|] && c.Drop(IdSet(taken)).free >= need)
            && forall k :: 0 <= k < |taken| ==> c.Drop(IdSet(victims[..k])).free < need
  {
    hide StableSort, Deletable, Recording.Finished, Catalog.Drop;
    var taken, victims := RoomTaken(c, makeRoom, need, now, fav), RoomVictims(c, now, fav);
    NeededIsMinimal(c.disk, victims, need - c.free);
    RoomVictimsAre(c, now, fav);
    assert victims[..|victims|] == victims;
    forall k | 0 <= k <= |victims| ensures c.Drop(IdSet(victims[..k])).free == c.free + Total(c.disk, victims[..k]) {
      DroppedFree(c, victims, k, now, fav);
    }
  }

  lemma {:induction false} DroppedFree(c: Catalog, list: seq<Recording>, n: nat, now: int, fav: set<int>)
    requires c.Valid() && Victims(c, list, now, fav) && n <= |list|
    ensures c.Drop(IdSet(list[..n])).free == c.free + Total(c.disk, list[..n])
  {
    hide Deletable, Filter, Total;
    NothingDropped(c);
    NoTotal(c.disk);
    if n > 0 {
      DroppedFree(c, list, n - 1, now, fav);
      PrefixIds(list, n - 1);
      assert list[n - 1] in list;
      DropMore(c, IdSet(list[..n - 1]), list[n - 1]);
      TotalPrefix(c.disk, list, n - 1);
    }
  }
}
