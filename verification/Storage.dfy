/** The storage clean-up and its dry run. */
module Storage {
  import opened Collections
  import opened Sorting
  import opened StorageRules

  function IdSet(recs: seq<Recording>): set<int> {
    set r | r in recs :: r.id
  }

  function PathSet(recs: seq<Recording>): set<string> {
    set r | r in recs :: r.path
  }

  function GoneIn(gone: set<int>): Recording -> bool { (r: Recording) => r.id in gone }

  function Stays(gone: set<int>): Recording -> bool { (r: Recording) => r.id !in gone }

  /** The library's rows, the files on disk, and the free bytes beside them. */
  datatype Catalog = Catalog(recs: seq<Recording>, disk: Disk, free: nat) {
    ghost predicate Valid() {
      DistinctRows(recs) && free + Total(disk, recs) <= MAX_U64
    }

    function Of(gone: set<int>): seq<Recording> {
      Filter(recs, GoneIn(gone))
    }

    /** Without the rows and files of the recordings gone. */
    function Drop(gone: set<int>): Catalog {
      Catalog(Filter(recs, Stays(gone)), disk - PathSet(Of(gone)), free + Total(disk, Of(gone)))
    }
  }

  function Row(recs: seq<Recording>, id: int): Option<Recording> {
    if recs == [] then None else if recs[0].id == id then Some(recs[0]) else Row(recs[1..], id)
  }

  // ----- what a clean-up takes -----

  function DaysVictims(c: Catalog, now: int, days: int, fav: set<int>): seq<Recording> {
    if days > 0 then Filter(Cleanable(c.disk, c.recs, now, fav), WatchedBefore(Cutoff(now, days))) else []
  }

  function RoomVictims(c: Catalog, now: int, fav: set<int>): seq<Recording> {
    RoomOrder(Cleanable(c.disk, c.recs, now, fav))
  }

  /** All or nothing: the shortest run of victims that frees what is short, or none. */
  function RoomTaken(c: Catalog, makeRoom: bool, need: nat, now: int, fav: set<int>): seq<Recording> {
    var victims := RoomVictims(c, now, fav);
    if makeRoom && BelowReserve(c.free, need) && Total(c.disk, victims) >= need - c.free
    then victims[..Needed(c.disk, victims, need - c.free)]
    else []
  }

  function AfterDays(c: Catalog, now: int, days: int, fav: set<int>): Catalog {
    c.Drop(IdSet(DaysVictims(c, now, days, fav)))
  }

  /** The recordings the hourly clean-up removes. */
  function CleanUp(c: Catalog, now: int, days: int, makeRoom: bool, reserve: nat, fav: set<int>): set<int> {
    IdSet(DaysVictims(c, now, days, fav)) +
    IdSet(RoomTaken(AfterDays(c, now, days, fav), makeRoom, reserve, now, fav))
  }

  // ----- dropping one more -----

  lemma {:induction false} RowOf(recs: seq<Recording>, rec: Recording)
    requires DistinctRows(recs) && rec in recs
    ensures Row(recs, rec.id) == Some(rec)
  {
    if recs[0] != rec { RowOf(recs[1..], rec); }
  }

  lemma {:induction false} RowIn(recs: seq<Recording>, id: int)
    ensures match Row(recs, id) case Some(r) => r in recs && r.id == id case None => id !in IdSet(recs)
  {
    if recs != [] && recs[0].id != id { RowIn(recs[1..], id); }
  }

  lemma {:induction false} FilterDistinct(recs: seq<Recording>, p: Recording -> bool)
    requires DistinctRows(recs)
    ensures DistinctRows(Filter(recs, p))
  {
    if recs != [] {
      FilterDistinct(recs[1..], p);
      assert forall r :: r in recs[1..] ==> r.id != recs[0].id && r.path != recs[0].path;
    }
  }

  lemma {:induction false} TotalMore(disk: Disk, recs: seq<Recording>, gone: set<int>, rec: Recording)
    requires DistinctRows(recs) && rec in recs && rec.id !in gone
    ensures var one, all := Filter(recs, GoneIn(gone)), Filter(recs, GoneIn(gone + {rec.id}));
            Total(disk, all) == Total(disk, one) + FileSize(disk, rec.path)
  {
    var p, q := GoneIn(gone), GoneIn(gone + {rec.id});
    if recs[0] == rec {
      assert forall r :: r in recs[1..] ==> r.id != rec.id;
      FilterSame(recs[1..], p, q);
    } else {
      assert recs[0].id != rec.id;
      TotalMore(disk, recs[1..], gone, rec);
    }
  }

  lemma SamePaths(disk: Disk, other: Disk, recs: seq<Recording>)
    requires forall r :: r in recs ==> FileSize(disk, r.path) == FileSize(other, r.path)
    ensures Total(disk, recs) == Total(other, recs)
  {
    if recs != [] { SamePaths(disk, other, recs[1..]); }
  }

  lemma OnlyOne(recs: seq<Recording>, rec: Recording)
    requires DistinctRows(recs) && rec in recs
    ensures Filter(recs, GoneIn({rec.id})) == [rec]
  {
    if recs[0] == rec {
      FilterNone(recs[1..], GoneIn({rec.id}));
    } else {
      assert recs[0].id != rec.id;
      OnlyOne(recs[1..], rec);
    }
  }

  /** A file that is not gone keeps its bytes. */
  lemma FileStays(c: Catalog, gone: set<int>, rec: Recording)
    requires DistinctRows(c.recs) && rec in c.recs && rec.id !in gone
    ensures rec in c.Drop(gone).recs
    ensures rec.path in c.disk <==> rec.path in c.Drop(gone).disk
    ensures FileSize(c.Drop(gone).disk, rec.path) == FileSize(c.disk, rec.path)
  {
    forall r | r in c.Of(gone) ensures r.path != rec.path {
      assert r.id != rec.id;
    }
  }

  lemma DropMore(c: Catalog, gone: set<int>, rec: Recording)
    requires DistinctRows(c.recs) && rec in c.recs && rec.id !in gone
    ensures c.Drop(gone).Drop({rec.id}) == c.Drop(gone + {rec.id})
    ensures c.Drop(gone + {rec.id}).free == c.Drop(gone).free + FileSize(c.disk, rec.path)
  {
    var d, all := c.Drop(gone), gone + {rec.id};
    FileStays(c, gone, rec);
    DropOf(c, gone, rec);
    TotalMore(c.disk, c.recs, gone, rec);
    FilterFilter(c.recs, Stays(gone), Stays({rec.id}), Stays(all));
    PathsMore(c, gone, rec);
    hide Filter, GoneIn, Stays;
    OneTotal(d.disk, rec);
  }

  lemma OneTotal(disk: Disk, rec: Recording)
    ensures Total(disk, [rec]) == FileSize(disk, rec.path)
  {
    assert [rec][1..] == [];
  }

  lemma DropOf(c: Catalog, gone: set<int>, rec: Recording)
    requires DistinctRows(c.recs) && rec in c.recs && rec.id !in gone
    ensures c.Drop(gone).Of({rec.id}) == [rec]
  {
    FilterDistinct(c.recs, Stays(gone));
    OnlyOne(c.Drop(gone).recs, rec);
  }

  lemma PathsMore(c: Catalog, gone: set<int>, rec: Recording)
    requires DistinctRows(c.recs) && rec in c.recs
    ensures PathSet(c.Of(gone + {rec.id})) == PathSet(c.Of(gone)) + {rec.path}
    ensures PathSet([rec]) == {rec.path}
  {
    var all := c.Of(gone + {rec.id});
    assert rec in all;
    forall p ensures p in PathSet(all) <==> p in PathSet(c.Of(gone)) + {rec.path} {
      if p in PathSet(all) {
        var r :| r in all && r.path == p;
        assert r == rec || r in c.Of(gone);
      }
      if p in PathSet(c.Of(gone)) {
        var r :| r in c.Of(gone) && r.path == p;
        assert r in all;
      }
    }
  }
}
