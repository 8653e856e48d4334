/** Which recordings a storage clean-up may remove, and in what order. Times are nanoseconds. */
module StorageRules {
  import opened Collections
  import opened Sorting

  const HOUR := 3_600_000_000_000
  const RECENT_PLAY := 6 * HOUR
  const ZERO_TIME := 0
  const MAX_U64 := 0xFFFF_FFFF_FFFF_FFFF

  datatype Status = InProgress | Complete | Failed

  /** inside says that the path is in the recordings folder. */
  datatype Recording = Recording(
    id: int, channel: int, path: string, inside: bool, status: Status, keep: bool,
    watched: int, watchedAt: Option<int>, duration: real, position: real, progressAt: Option<int>)
  {
    predicate Played() {
      if watched == 2 then false
      else if watched == 1 then true
      else if duration < 10.0 || position < 1.0 then false
      else position >= duration - 15.0 || position / duration >= 0.9
    }

    /** Watched in a way a clean-up trusts. */
    predicate Finished() {
      if watched == 1 then true
      else if watched == 0 then duration >= 10.0 && position >= 1.0 && position >= duration - 15.0
      else false
    }

    function WatchedSince(): int {
      if !Played() then ZERO_TIME
      else
        var at := if watched == 1 && watchedAt.Some? then watchedAt.value else ZERO_TIME;
        if progressAt.Some? && progressAt.value > at then progressAt.value else at
    }

    /** Watched before the cutoff. */
    predicate Aged(cutoff: int) {
      WatchedSince() != ZERO_TIME && WatchedSince() < cutoff
    }
  }

  type Disk = map<string, nat>

  function FileSize(disk: Disk, path: string): nat {
    if path in disk then disk[path] else 0
  }

  predicate Deletable(disk: Disk, rec: Recording, now: int, fav: set<int>) {
    && !rec.keep && rec.status == Complete && rec.Finished() && rec.inside
    && !(rec.progressAt.Some? && now - rec.progressAt.value < RECENT_PLAY)
    && rec.path in disk && rec.channel !in fav
  }

  function CanGo(disk: Disk, now: int, fav: set<int>): Recording -> bool {
    (r: Recording) => Deletable(disk, r, now, fav)
  }

  function Cleanable(disk: Disk, recs: seq<Recording>, now: int, fav: set<int>): seq<Recording> {
    Filter(recs, CanGo(disk, now, fav))
  }

  /** Watched longest ago first, then the lowest id. */
  predicate WatchedLe(a: Recording, b: Recording) {
    a.WatchedSince() < b.WatchedSince() || (a.WatchedSince() == b.WatchedSince() && a.id <= b.id)
  }

  function IsFinished(): Recording -> bool { (r: Recording) => r.Finished() }

  function WatchedBefore(cutoff: int): Recording -> bool { (r: Recording) => r.Aged(cutoff) }

  function RoomOrder(recs: seq<Recording>): seq<Recording> {
    StableSort(Filter(recs, IsFinished()), WatchedLe)
  }

  predicate BelowReserve(free: nat, reserve: nat) { reserve > 0 && free < reserve }

  function Cutoff(now: int, days: int): int { now - days * 24 * HOUR }

  /** uint64 addition. */
  function Plus(a: nat, b: nat): nat { (a + b) % (MAX_U64 + 1) }

  /** Free space after more is unlinked; a sum past uint64 counts as no shortfall. */
  function FreedSpace(free: nat, extra: nat): nat
    requires free <= MAX_U64
  {
    if extra > MAX_U64 - free then MAX_U64 else free + extra
  }

  function Total(disk: Disk, recs: seq<Recording>): nat {
    if recs == [] then 0 else FileSize(disk, recs[0].path) + Total(disk, recs[1..])
  }

  /** How many of the victims it takes, in order, to free short bytes. */
  function Needed(disk: Disk, victims: seq<Recording>, short: int): (n: nat)
    ensures n <= |victims|
  {
    if short <= 0 || victims == [] then 0
    else 1 + Needed(disk, victims[1..], short - FileSize(disk, victims[0].path))
  }

  /** It is the shortest run that frees enough, when all of them together would. */
  lemma {:induction false} NeededIsMinimal(disk: Disk, victims: seq<Recording>, short: int)
    ensures Total(disk, victims) >= short ==> Total(disk, victims[..Needed(disk, victims, short)]) >= short
    ensures forall k :: 0 <= k < Needed(disk, victims, short) ==> Total(disk, victims[..k]) < short
  {
    var n := Needed(disk, victims, short);
    if short > 0 && victims != [] {
      var size := FileSize(disk, victims[0].path);
      NeededIsMinimal(disk, victims[1..], short - size);
      assert victims[..n][1..] == victims[1..][..n - 1];
      forall k | 0 <= k < n ensures Total(disk, victims[..k]) < short {
        if k > 0 {
          assert victims[..k][1..] == victims[1..][..k - 1];
        }
      }
    }
  }

  lemma {:induction false} TotalAppend(disk: Disk, a: seq<Recording>, b: seq<Recording>)
    ensures Total(disk, a + b) == Total(disk, a) + Total(disk, b)
  {
    if a == [] {
      assert a + b == b;
    } else {
      assert (a + b)[1..] == a[1..] + b;
      TotalAppend(disk, a[1..], b);
    }
  }

  lemma {:induction false} TotalSplit(disk: Disk, s: seq<Recording>, p: Recording -> bool)
    ensures Total(disk, s) == Total(disk, Filter(s, p)) + Total(disk, Filter(s, r => !p(r)))
  {
    if s != [] { TotalSplit(disk, s[1..], p); }
  }

  lemma {:induction false} TotalInsert(disk: Disk, x: Recording, s: seq<Recording>)
    ensures Total(disk, Insert(x, s, WatchedLe)) == FileSize(disk, x.path) + Total(disk, s)
  {
    hide WatchedLe;
    if s != [] && !WatchedLe(x, s[0]) { TotalInsert(disk, x, s[1..]); }
  }

  lemma {:induction false} TotalSorted(disk: Disk, s: seq<Recording>)
    ensures Total(disk, StableSort(s, WatchedLe)) == Total(disk, s)
  {
    hide WatchedLe;
    if s != [] {
      TotalSorted(disk, s[1..]);
      TotalInsert(disk, s[0], StableSort(s[1..], WatchedLe));
    }
  }

  ghost predicate DistinctRows(recs: seq<Recording>) {
    forall i, j :: 0 <= i < j < |recs| ==> recs[i].id != recs[j].id && recs[i].path != recs[j].path
  }

  lemma WatchedOrder()
    ensures TotalPreorder(WatchedLe)
  {
    hide Recording.WatchedSince;
  }
}
