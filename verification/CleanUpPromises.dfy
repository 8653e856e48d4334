/** What the storage clean-up promises, said of the fields of the recordings alone. */
module CleanUpPromises {
  import opened Collections
  import opened Sorting
  import opened StorageRules
  import opened Storage
  import opened StorageCleanUp

  /**
    What a clean-up may remove: a complete recording in the recordings folder
    with its file there, not kept forever, not on a favorite channel, not
    played in the last six hours, and marked watched, or played to its last
    fifteen seconds and not marked unwatched.
  */
  predicate Expendable(disk: Disk, r: Recording, now: int, fav: set<int>) {
    && r.status == Complete && r.inside && r.path in disk
    && !r.keep && r.channel !in fav
    && (r.progressAt.None? || r.progressAt.value + 21_600_000_000_000 <= now)
    && (r.watched == 1 || (r.watched == 0 && 10.0 <= r.duration <= r.position + 15.0 && 1.0 <= r.position))
  }

  /** When a watched recording was last seen: the later of its mark, if it is marked, and its last playing; 0 if never. */
  predicate LastSeen(r: Recording, at: int) {
    var mark := if r.watched == 1 && r.watchedAt.Some? then r.watchedAt.value else 0;
    && mark <= at && (r.progressAt.Some? ==> r.progressAt.value <= at)
    && (at == mark || r.progressAt == Some(at))
  }

  /** Seen longer ago, or at the same time and recorded under a lower id. */
  ghost predicate GoesBefore(r: Recording, other: Recording) {
    exists at, later :: LastSeen(r, at) && LastSeen(other, later) && (at < later || (at == later && r.id <= other.id))
  }

  lemma DeletableIsExpendable(disk: Disk, r: Recording, now: int, fav: set<int>)
    ensures Deletable(disk, r, now, fav) <==> Expendable(disk, r, now, fav)
  {
  }

  lemma SinceIsLastSeen(disk: Disk, r: Recording, now: int, fav: set<int>, at: int)
    requires Expendable(disk, r, now, fav)
    ensures LastSeen(r, at) <==> at == r.WatchedSince()
  {
  }

  lemma LeGoesBefore(disk: Disk, r: Recording, other: Recording, now: int, fav: set<int>)
    requires Expendable(disk, r, now, fav) && Expendable(disk, other, now, fav) && WatchedLe(r, other)
    ensures GoesBefore(r, other)
  {
    SinceIsLastSeen(disk, r, now, fav, r.WatchedSince());
    SinceIsLastSeen(disk, other, now, fav, other.WatchedSince());
  }

  /** The days rule takes exactly the expendable recordings last seen more than that many days ago. */
  lemma DaysRuleTakes(c: Catalog, now: int, days: int, fav: set<int>, r: Recording)
    requires c.Valid() && r in c.recs
    ensures r.id in IdSet(DaysVictims(c, now, days, fav)) <==>
      && days > 0 && Expendable(c.disk, r, now, fav)
      && exists at :: LastSeen(r, at) && at != 0 && at < now - days * 86_400_000_000_000
  {
    var list := DaysVictims(c, now, days, fav);
    DaysVictimsAre(c, now, days, fav);
    DeletableIsExpendable(c.disk, r, now, fav);
    OnlyRow(c, list, r);
    if Expendable(c.disk, r, now, fav) {
      SinceIsLastSeen(c.disk, r, now, fav, r.WatchedSince());
      forall at | LastSeen(r, at) ensures at == r.WatchedSince() {
        SinceIsLastSeen(c.disk, r, now, fav, at);
      }
    }
  }

  lemma OnlyRow(c: Catalog, list: seq<Recording>, r: Recording)
    requires DistinctRows(c.recs) && r in c.recs && forall v :: v in list ==> v in c.recs
    ensures r.id in IdSet(list) <==> r in list
  {
    if r.id in IdSet(list) {
      var v :| v in list && v.id == r.id;
      assert v in c.recs;
    }
  }

  /** Only what is expendable goes; a recording kept forever stays, row and file. */
  lemma OnlyExpendableGoes(c: Catalog, now: int, days: int, makeRoom: bool, reserve: nat, fav: set<int>, r: Recording)
    requires c.Valid() && r in c.recs && !Expendable(c.disk, r, now, fav)
    ensures var end := c.Drop(CleanUp(c, now, days, makeRoom, reserve, fav));
            r in end.recs && (r.path in c.disk ==> r.path in end.disk && end.disk[r.path] == c.disk[r.path])
  {
    var gone := CleanUp(c, now, days, makeRoom, reserve, fav);
    hide CleanUp, Expendable;
    if r.id in gone {
      var v := GoesOnlyIf(c, now, days, makeRoom, reserve, fav, r.id);
      OneRow(c, v, r);
    }
    FileStays(c, gone, r);
    if r.path in c.disk {
      FileSizeKept(c, gone, r);
    }
  }

  lemma OneRow(c: Catalog, v: Recording, r: Recording)
    requires DistinctRows(c.recs) && v in c.recs && r in c.recs && v.id == r.id
    ensures v == r
  {
  }

  lemma FileSizeKept(c: Catalog, gone: set<int>, r: Recording)
    requires DistinctRows(c.recs) && r in c.recs && r.id !in gone && r.path in c.disk
    ensures r.path in c.Drop(gone).disk && c.Drop(gone).disk[r.path] == c.disk[r.path]
  {
    FileStays(c, gone, r);
  }

  lemma GoesOnlyIf(c: Catalog, now: int, days: int, makeRoom: bool, reserve: nat, fav: set<int>, id: int)
    returns (r: Recording)
    requires c.Valid() && id in CleanUp(c, now, days, makeRoom, reserve, fav)
    ensures r in c.recs && r.id == id && Expendable(c.disk, r, now, fav)
  {
    var aged, after := DaysVictims(c, now, days, fav), AfterDays(c, now, days, fav);
    DaysVictimsAre(c, now, days, fav);
    DropValid(c, IdSet(aged));
    RoomVictimsAre(after, now, fav);
    if id in IdSet(aged) {
      r :| r in aged && r.id == id;
    } else {
      r :| r in RoomTaken(after, makeRoom, reserve, now, fav) && r.id == id;
      assert r in RoomVictims(after, now, fav);
      FromRoom(c, IdSet(aged), r, now, fav);
    }
    DeletableIsExpendable(c.disk, r, now, fav);
  }

  /** Making room goes by when the recordings were last seen: what it takes was seen no later than what it could have taken and leaves. */
  lemma RoomTakesLongestUnseen(c: Catalog, makeRoom: bool, need: nat, now: int, fav: set<int>, r: Recording, other: Recording)
    requires c.Valid() && r in RoomTaken(c, makeRoom, need, now, fav)
    requires other in c.recs && Expendable(c.disk, other, now, fav) && other !in RoomTaken(c, makeRoom, need, now, fav)
    ensures r in c.recs && Expendable(c.disk, r, now, fav) && GoesBefore(r, other)
  {
    var victims, taken := RoomVictims(c, now, fav), RoomTaken(c, makeRoom, need, now, fav);
    DeletableIsExpendable(c.disk, r, now, fav);
    DeletableIsExpendable(c.disk, other, now, fav);
    RoomVictimsAre(c, now, fav);
    Pooled(c, now, fav, other);
    WatchedOrder();
    StableSortSorts(Cleanable(c.disk, c.recs, now, fav), WatchedLe);
    TakenFirst(c, makeRoom, need, now, fav);
    hide GoesBefore, Expendable, WatchedLe, Deletable, RoomTaken, RoomVictims, StableSort, Cleanable, Total, DistinctRows;
    FirstGoBefore(victims, taken, r, other);
    LeGoesBefore(c.disk, r, other, now, fav);
  }

  lemma TakenFirst(c: Catalog, makeRoom: bool, need: nat, now: int, fav: set<int>)
    ensures var victims, taken := RoomVictims(c, now, fav), RoomTaken(c, makeRoom, need, now, fav);
            |taken| <= |victims| && taken == victims[..|taken|]
  {
    hide RoomVictims, Total, Needed;
  }

  lemma FirstGoBefore(victims: seq<Recording>, taken: seq<Recording>, r: Recording, other: Recording)
    requires SortedBy(victims, WatchedLe) && |taken| <= |victims| && taken == victims[..|taken|]
    requires r in taken && other in victims && other !in taken
    ensures WatchedLe(r, other) && r in victims
  {
    var i := PlaceIn(taken, r);
    var j := PlaceIn(victims, other);
    assert victims[i] == r;
    assert forall k :: 0 <= k < |taken| ==> taken[k] in taken && taken[k] == victims[k];
  }

  lemma PlaceIn(list: seq<Recording>, r: Recording) returns (i: nat)
    requires r in list
    ensures i < |list| && list[i] == r
  {
    i :| 0 <= i < |list| && list[i] == r;
  }

  lemma Pooled(c: Catalog, now: int, fav: set<int>, r: Recording)
    requires c.Valid() && r in c.recs && Deletable(c.disk, r, now, fav)
    ensures r in RoomVictims(c, now, fav)
  {
    RoomVictimsAre(c, now, fav);
    SameElements(RoomVictims(c, now, fav), Cleanable(c.disk, c.recs, now, fav));
  }

  /** The dry run lists nothing that is not expendable. */
  lemma ListedIsExpendable(plan: Plan, c: Catalog, now: int, days: int, makeRoom: bool, reserve: nat, fav: set<int>, r: Recording)
    requires c.Valid() && Truthful(plan, c, now, days, makeRoom, reserve, fav)
    requires r in c.recs && r.id in Listed(plan)
    ensures Expendable(c.disk, r, now, fav)
  {
    PreviewTellsTheTruth(plan, c, now, days, makeRoom, reserve, fav);
    hide Deletable, Expendable, Truthful, CleanUp;
    var v := GoesOnlyIf(c, now, days, makeRoom, reserve, fav, r.id);
    OneRow(c, v, r);
  }

  // ----- bytes -----

  /** The bytes of all files. */
  ghost function Bytes(disk: Disk): nat {
    if disk == map[] then 0
    else
      var p :| p in disk;
      disk[p] + Bytes(disk - {p})
  }

  lemma {:induction false} BytesWithout(disk: Disk, p: string)
    requires p in disk
    ensures Bytes(disk) == disk[p] + Bytes(disk - {p})
  {
    var q :| q in disk && Bytes(disk) == disk[q] + Bytes(disk - {q});
    if p != q {
      BytesWithout(disk - {q}, p);
      BytesWithout(disk - {p}, q);
      assert disk - {q} - {p} == disk - {p} - {q};
    }
  }

  lemma {:induction false} BytesOf(disk: Disk, list: seq<Recording>)
    requires DistinctRows(list)
    ensures Bytes(disk) == Total(disk, list) + Bytes(disk - PathSet(list))
  {
    if list == [] {
      assert disk - PathSet(list) == disk;
    } else {
      var r, rest := list[0], list[1..];
      BytesOf(disk, rest);
      assert forall v :: v in rest ==> v.path != r.path;
      var left := disk - PathSet(rest);
      assert PathSet(list) == PathSet(rest) + {r.path};
      assert disk - PathSet(list) == left - {r.path};
      if r.path in disk {
        BytesWithout(left, r.path);
      } else {
        assert left - {r.path} == left;
      }
    }
  }

  /** The clean-up neither makes nor loses bytes: what it takes from the files is free. */
  lemma BytesAreFreed(c: Catalog, gone: set<int>)
    requires c.Valid()
    ensures c.Drop(gone).free + Bytes(c.Drop(gone).disk) == c.free + Bytes(c.disk)
  {
    FilterDistinct(c.recs, GoneIn(gone));
    BytesOf(c.disk, c.Of(gone));
  }
}
