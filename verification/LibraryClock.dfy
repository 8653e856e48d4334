/** A library channel's clock: recordings on a loop anchored at local midnight. Times are seconds. */
module LibraryClock {
  import opened LibraryLineup

  datatype Slot = Slot(recordingId: int, title: int, start: real, end: real)

  function SlotSeconds(rec: Recording): (s: real)
    ensures s >= 60.0
  {
    if rec.duration < 60.0 then 1800.0 else rec.duration
  }

  // ----- the endless loop of the lineup -----

  function At(list: seq<Recording>, m: nat): Recording
    requires list != []
  {
    list[m % |list|]
  }

  /** Seconds from the start of the loop to the start of its m-th slot. */
  function Clock(list: seq<Recording>, m: nat): (s: real)
    requires list != []
  {
    if m == 0 then 0.0 else Clock(list, m - 1) + SlotSeconds(At(list, m - 1))
  }

  /** No slot is shorter than a minute. */
  lemma {:induction false} ClockGrows(list: seq<Recording>, m: nat)
    requires list != []
    ensures Clock(list, m) >= 60.0 * m as real
  {
    hide At;
    if m > 0 { ClockGrows(list, m - 1); }
  }

  ghost predicate Covers(list: seq<Recording>, m: nat, x: real)
    requires list != []
  {
    Clock(list, m) <= x < Clock(list, m + 1)
  }

  lemma {:induction false} ClockMonotone(list: seq<Recording>, m: nat, k: nat)
    requires list != [] && m <= k
    ensures Clock(list, m) <= Clock(list, k)
    decreases k - m
  {
    if m < k { ClockMonotone(list, m, k - 1); }
  }

  /** At most one slot is on at any instant. */
  lemma CoversUnique(list: seq<Recording>, m: nat, k: nat, x: real)
    requires list != [] && Covers(list, m, x) && Covers(list, k, x)
    ensures m == k
  {
    if m < k { ClockMonotone(list, m + 1, k); }
    if k < m { ClockMonotone(list, k + 1, m); }
  }

  ghost function Sum(list: seq<Recording>): real
    requires list != []
  {
    Clock(list, |list|)
  }

  lemma ModAdd(m: nat, k: nat, n: nat)
    requires n > 0
    ensures (m + k * n) % n == m % n
  {
    if k > 0 {
      ModAdd(m, k - 1, n);
      assert m + k * n == m + (k - 1) * n + n;
      ModStep(m + (k - 1) * n, n);
    }
  }

  lemma ModStep(m: nat, n: nat)
    requires n > 0
    ensures (m + n) % n == m % n
  {
    var q, r := m / n, m % n;
    assert m + n == (q + 1) * n + r;
    ModUnique(m + n, q + 1, r, n);
  }

  lemma ModUnique(x: nat, q: nat, r: nat, n: nat)
    requires x == q * n + r && r < n
    ensures x % n == r
  {
    var d := x / n - q;
    assert x == (x / n) * n + x % n;
    assert d * n == r - x % n;
    Multiple(d, n);
  }

  lemma Multiple(d: int, n: int)
    requires n > 0
    ensures d >= 1 ==> d * n >= n
    ensures d <= -1 ==> d * n <= -n
  {
  }

  lemma OneMore(q: nat, s: real)
    requires q > 0
    ensures q as real * s == (q - 1) as real * s + s
  {
    assert q as real == (q - 1) as real + 1.0;
  }

  /** One cycle further on the clock is one sum later. */
  lemma {:induction false} ClockCycle(list: seq<Recording>, m: nat)
    requires list != []
    ensures Clock(list, m + |list|) == Clock(list, m) + Sum(list)
  {
    if m > 0 {
      ClockCycle(list, m - 1);
      ModStep(m - 1, |list|);
    }
  }

  lemma {:induction false} ClockCycles(list: seq<Recording>, m: nat, q: nat)
    requires list != []
    ensures Clock(list, m + q * |list|) == Clock(list, m) + q as real * Sum(list)
  {
    hide Clock, Sum;
    if q > 0 {
      ClockCycles(list, m, q - 1);
      assert m + q * |list| == m + (q - 1) * |list| + |list|;
      ClockCycle(list, m + (q - 1) * |list|);
      OneMore(q, Sum(list));
    }
  }

  /** The lineup turned so that slot m comes first. */
  function Rotate(list: seq<Recording>, r: nat): (t: seq<Recording>)
    requires r < |list|
    ensures |t| == |list|
  {
    list[r..] + list[..r]
  }

  lemma RotateAt(list: seq<Recording>, m: nat, k: nat)
    requires list != []
    ensures At(Rotate(list, m % |list|), k) == At(list, m + k)
  {
    var n := |list|;
    var r, j := m % n, k % n;
    ModSum(m, k, n);
    if r + j < n {
      assert Rotate(list, r)[j] == list[r + j];
    } else {
      assert Rotate(list, r)[j] == list[r + j - n];
    }
  }

  lemma ModSum(m: nat, k: nat, n: nat)
    requires n > 0
    ensures (m + k) % n == if m % n + k % n < n then m % n + k % n else m % n + k % n - n
  {
    var r, q := m % n + k % n, m / n + k / n;
    Distribute(m / n, k / n, n);
    assert m + k == q * n + r;
    if r < n {
      ModUnique(m + k, q, r, n);
    } else {
      Distribute(q, 1, n);
      ModUnique(m + k, q + 1, r - n, n);
    }
  }

  lemma Distribute(a: int, b: int, n: int)
    ensures (a + b) * n == a * n + b * n
  {
  }

  lemma {:induction false} RotateClock(list: seq<Recording>, m: nat, k: nat)
    requires list != []
    ensures Clock(list, m) + Clock(Rotate(list, m % |list|), k) == Clock(list, m + k)
  {
    if k > 0 {
      RotateClock(list, m, k - 1);
      RotateAt(list, m, k - 1);
    }
  }

  // ----- cycle, join, slots -----

  /** The whole number nearest zero. */
  function Trunc(x: real): int {
    if x >= 0.0 then x.Floor else -((-x).Floor)
  }

  /** math.Mod for a positive divisor. */
  function Mod(x: real, y: real): real
    requires y > 0.0
  {
    x - Trunc(x / y) as real * y
  }

  lemma ModRange(x: real, y: real)
    requires y > 0.0
    ensures x >= 0.0 ==> Trunc(x / y) >= 0 && 0.0 <= Mod(x, y) < y
    ensures x < 0.0 ==> -y < Mod(x, y) <= 0.0
  {
    assert (x / y) * y == x;
    TruncRange(x / y);
    PartRange(x, y, x / y, Trunc(x / y) as real);
    assert x >= 0.0 ==> x / y >= 0.0;
    assert x <= 0.0 ==> x / y <= 0.0;
  }

  lemma PartRange(x: real, y: real, q: real, t: real)
    requires y > 0.0 && x == q * y
    ensures 0.0 <= q - t < 1.0 ==> 0.0 <= x - t * y < y
    ensures -1.0 < q - t <= 0.0 ==> -y < x - t * y <= 0.0
  {
    var f, p := q - t, x - t * y;
    assert p == f * y;
    Fraction(f, y, p);
  }

  lemma TruncRange(q: real)
    ensures q >= 0.0 ==> Trunc(q) >= 0 && 0.0 <= q - Trunc(q) as real < 1.0
    ensures q <= 0.0 ==> -1.0 < q - Trunc(q) as real <= 0.0
  {
  }

  lemma Fraction(f: real, y: real, p: real)
    requires y > 0.0 && p == f * y
    ensures f >= 0.0 ==> p >= 0.0
    ensures f <= 0.0 ==> p <= 0.0
    ensures f < 1.0 ==> p < y
    ensures f > -1.0 ==> p > -y
  {
    FractionBelow(f, y, p);
    assert -p == -f * y;
    FractionBelow(-f, y, -p);
  }

  lemma FractionBelow(f: real, y: real, p: real)
    requires y > 0.0 && p == f * y
    ensures f < 1.0 ==> p < y
  {
    if f < 1.0 {
      var g := 1.0 - f;
      PositiveProduct(g, y);
      assert g * y == 1.0 * y - f * y;
      assert g * y > 0.0;
      assert y - p > 0.0;
    }
  }

  lemma PositiveProduct(g: real, y: real)
    requires g > 0.0 && y > 0.0
    ensures g * y > 0.0
  {
  }

  lemma AtFirst(list: seq<Recording>, i: nat)
    requires i < |list|
    ensures At(list, i) == list[i]
  {
  }

  method TotalSeconds(list: seq<Recording>) returns (sum: real)
    requires list != []
    ensures sum == Sum(list)
  {
    hide SlotSeconds;
    sum := 0.0;
    for i := 0 to |list|
      invariant sum == Clock(list, i)
    {
      AtFirst(list, i);
      sum := sum + SlotSeconds(list[i]);
    }
  }

  lemma SumPositive(list: seq<Recording>)
    requires list != []
    ensures Sum(list) > 0.0
  {
    ClockGrows(list, |list|);
  }

  lemma ClockStep(list: seq<Recording>, m: nat)
    requires list != []
    ensures Clock(list, 0) == 0.0
    ensures Clock(list, m + 1) == Clock(list, m) + SlotSeconds(At(list, m))
  {
  }

  lemma ModParts(x: real, y: real)
    requires y > 0.0
    ensures x == Trunc(x / y) as real * y + Mod(x, y)
  {
  }

  lemma CycleFound(list: seq<Recording>, i: nat, q: nat, spot: real, x: real)
    requires i < |list| && Covers(list, i, spot) && x == q as real * Sum(list) + spot
    ensures var turn := i + q * |list|;
            turn % |list| == i && Covers(list, turn, x) && x - Clock(list, turn) == spot - Clock(list, i)
  {
    hide Clock, Sum;
    ClockCycles(list, i, q);
    ClockCycles(list, i + 1, q);
    assert i + 1 + q * |list| == i + q * |list| + 1;
    ModAdd(i, q, |list|);
  }

  /** The slot of one cycle that covers a spot in it, and how far in; the end is never reached. */
  method FindSlot(list: seq<Recording>, spot: real) returns (i: nat, pos: real)
    requires list != [] && 0.0 <= spot < Sum(list)
    ensures i < |list| && Covers(list, i, spot) && pos == spot - Clock(list, i)
  {
    hide Clock, At;
    i, pos := 0, spot;
    ClockStep(list, 0);
    for k := 0 to |list|
      invariant pos == spot - Clock(list, k) && pos >= 0.0
    {
      var dur := SlotSeconds(list[k]);
      AtFirst(list, k);
      ClockStep(list, k);
      if pos < dur {
        return k, pos;
      }
      pos := pos - dur;
    }
    assert false;
  }

  /** The lineup turned to what is on x seconds after midnight, and how far into it that is. */
  method Cycle(list: seq<Recording>, x: real) returns (ok: bool, turned: seq<Recording>, offset: real, ghost turn: nat)
    requires x >= 0.0
    ensures ok <==> list != []
    ensures ok ==> Covers(list, turn, x) && turned == Rotate(list, turn % |list|) && offset == x - Clock(list, turn)
  {
    turn := 0;
    if |list| == 0 {
      return false, [], 0.0, 0;
    }
    hide Clock, Sum, Mod, Trunc, At, Covers;
    var sum := TotalSeconds(list);
    SumPositive(list);
    if sum <= 0.0 {
      assert false;
    }
    var pos := Mod(x, sum);
    ModRange(x, sum);
    if pos < 0.0 {
      pos := pos + sum;
    }
    ModParts(x, sum);
    var i, left := FindSlot(list, pos);
    ghost var q := Trunc(x / sum);
    turn := i + q * |list|;
    CycleFound(list, i, q, pos, x);
    turned := list;
    if i > 0 {
      turned := list[i..] + list[..i];
    }
    assert turned == Rotate(list, i);
    return true, turned, left, turn;
  }

  // ----- the slot that is on -----

  lemma {:induction false} CoverBelow(list: seq<Recording>, x: real, m: nat) returns (k: nat)
    requires list != [] && 0.0 <= x < Clock(list, m)
    ensures k < m && Covers(list, k, x)
  {
    if Clock(list, m - 1) <= x {
      k := m - 1;
    } else {
      k := CoverBelow(list, x, m - 1);
    }
  }

  lemma CoverExists(list: seq<Recording>, x: real)
    requires list != [] && x >= 0.0
    ensures exists k :: Covers(list, k, x)
  {
    var m := x.Floor + 1;
    ClockGrows(list, m);
    assert 60.0 * m as real >= m as real;
    var k := CoverBelow(list, x, m);
  }

  /** The slot on x seconds after midnight. */
  ghost function OnAt(list: seq<Recording>, x: real): (m: nat)
    requires list != [] && x >= 0.0
    ensures Covers(list, m, x)
  {
    CoverExists(list, x);
    var k :| Covers(list, k, x);
    k
  }

  function SlotAt(list: seq<Recording>, start: real, k: nat): Slot
    requires list != []
  {
    Slot(At(list, k).id, At(list, k).title, start + Clock(list, k), start + Clock(list, k + 1))
  }

  const CAP := 4096

  /** Slots from start on, until one reaches past to or there are 4096. */
  ghost predicate LaidOut(out: seq<Slot>, list: seq<Recording>, start: real, to: real) {
    if list == [] || to <= start then out == []
    else
      && |out| <= CAP
      && (forall k: nat :: k < |out| ==> out[k] == SlotAt(list, start, k) && out[k].start < to)
      && (|out| < CAP ==> start + Clock(list, |out|) >= to)
  }

  method LayOut(list: seq<Recording>, from: real, to: real) returns (out: seq<Slot>)
    ensures LaidOut(out, list, from, to)
  {
    out := [];
    if |list| == 0 || to <= from {
      return;
    }
    hide At, Clock;
    var cursor := from;
    var i := 0;
    ClockStep(list, 0);
    while cursor < to && |out| < CAP
      invariant |out| == i <= CAP && cursor == from + Clock(list, i) && cursor >= from
      invariant forall k: nat :: k < |out| ==> out[k] == SlotAt(list, from, k) && out[k].start < to
      decreases CAP - i
    {
      var rec := list[i % |list|];
      IsAt(list, i);
      ClockStep(list, i);
      var dur := SlotSeconds(rec);
      if dur < 1.0 {
        assert false;
      }
      var end := cursor + dur;
      if end > from {
        out := out + [Slot(rec.id, rec.title, cursor, end)];
      }
      cursor := end;
      i := i + 1;
    }
  }

  lemma IsAt(list: seq<Recording>, i: nat)
    requires list != []
    ensures At(list, i) == list[i % |list|]
  {
  }

  method Slots(order: Order, ids: seq<int>, recs: seq<Recording>, yearDay: int, from: real, to: real)
    returns (out: seq<Slot>)
    ensures LaidOut(out, Lineup(order, ids, recs, yearDay), from, to)
  {
    out := LayOut(Lineup(order, ids, recs, yearDay), from, to);
  }

  /** The recording on at now, and how many seconds into it. */
  method Join(order: Order, ids: seq<int>, recs: seq<Recording>, midnight: real, yearDay: int, now: real)
    returns (id: int, offset: real, ok: bool)
    requires now >= midnight
    ensures ok <==> Lineup(order, ids, recs, yearDay) != []
    ensures ok ==>
              var list := Lineup(order, ids, recs, yearDay);
              var m := OnAt(list, now - midnight);
              id == At(list, m).id && offset == now - midnight - Clock(list, m)
  {
    hide At, Clock, Covers, Lineup;
    var list := Lineup(order, ids, recs, yearDay);
    var found, turned, into, turn := Cycle(list, now - midnight);
    if !found {
      return 0, 0.0, false;
    }
    CoversUnique(list, turn, OnAt(list, now - midnight), now - midnight);
    RotateAt(list, turn, 0);
    IsAt(turned, 0);
    assert turned[0] == At(list, turn);
    return turned[0].id, into, true;
  }

  // ----- the guide -----

  function Ids(list: seq<Recording>): (ids: seq<int>)
    ensures |ids| == |list| && forall i :: 0 <= i < |list| ==> ids[i] == list[i].id
  {
    seq(|list|, i requires 0 <= i < |list| => list[i].id)
  }

  /** One id is one recording, and none failed: what every lineup is. */
  ghost predicate Consistent(list: seq<Recording>) {
    && (forall r :: r in list ==> !r.failed)
    && (forall a, b :: a in list && b in list && a.id == b.id ==> a == b)
  }

  lemma LineupConsistent(order: Order, ids: seq<int>, recs: seq<Recording>, yearDay: int)
    ensures Consistent(Lineup(order, ids, recs, yearDay))
  {
    var byID := ByID(recs);
    var listed := Listed(ids, byID);
    var list := Lineup(order, ids, recs, yearDay);
    hide Arrange, Listed, ByID;
    forall r | r in list ensures r in listed {
      assert r in multiset(list);
      assert r in multiset(listed);
    }
  }

  lemma {:induction false} ByIDConsistent(list: seq<Recording>, n: nat)
    requires Consistent(list) && n <= |list|
    ensures forall i :: 0 <= i < n ==> list[i].id in ByID(list[..n]) && ByID(list[..n])[list[i].id] == list[i]
  {
    if n > 0 {
      assert list[..n][..n - 1] == list[..n - 1];
      ByIDConsistent(list, n - 1);
    }
  }

  /** Looking a lineup up again by its own ids gives it back. */
  lemma {:induction false} RelistedPrefix(list: seq<Recording>, byID: map<int, Recording>, n: nat)
    requires Consistent(list) && n <= |list|
    requires forall i :: 0 <= i < |list| ==> list[i].id in byID && byID[list[i].id] == list[i]
    ensures Listed(Ids(list)[..n], byID) == list[..n]
  {
    if n > 0 {
      assert Ids(list)[..n][..n - 1] == Ids(list)[..n - 1];
      RelistedPrefix(list, byID, n - 1);
      assert list[n - 1] in list;
      assert list[..n] == list[..n - 1] + [list[n - 1]];
    }
  }

  lemma Relisted(list: seq<Recording>, yearDay: int)
    requires Consistent(list)
    ensures Lineup(AsListed, Ids(list), list, yearDay) == list
  {
    ByIDConsistent(list, |list|);
    assert list[..|list|] == list;
    RelistedPrefix(list, ByID(list), |list|);
    assert Ids(list)[..|list|] == Ids(list);
  }

  /** The guide's slots, numbered on the loop from midnight. */
  ghost predicate Scheduled(out: seq<Slot>, list: seq<Recording>, midnight: real, from: real, to: real)
    requires from >= midnight
  {
    if list == [] || to <= from then out == []
    else
      var m := OnAt(list, from - midnight);
      && 1 <= |out| <= CAP
      && (forall k: nat :: k < |out| ==> out[k] == SlotAt(list, midnight, m + k) && out[k].start < to)
      && (|out| < CAP ==> out[|out| - 1].end >= to)
  }

  method ScheduleFrom(order: Order, ids: seq<int>, recs: seq<Recording>, midnight: real, yearDay: int, from: real, to: real)
    returns (out: seq<Slot>)
    requires from >= midnight
    ensures Scheduled(out, Lineup(order, ids, recs, yearDay), midnight, from, to)
  {
    hide At, Clock, Covers, Lineup, Consistent, Rotate, LaidOut;
    var lineup := Lineup(order, ids, recs, yearDay);
    var found, list, offset, turn := Cycle(lineup, from - midnight);
    if !found || to <= from {
      return [];
    }
    var rotated := Ids(list);
    var start := from - offset;
    LineupConsistent(order, ids, recs, yearDay);
    TurnedConsistent(lineup, turn);
    Relisted(list, yearDay);
    out := Slots(AsListed, rotated, list, yearDay, start, to);
    CoversUnique(lineup, turn, OnAt(lineup, from - midnight), from - midnight);
    CoversStart(lineup, turn, from - midnight);
    TurnedSchedule(out, lineup, midnight, turn, from, to);
  }

  lemma CoversStart(list: seq<Recording>, m: nat, x: real)
    requires list != [] && Covers(list, m, x)
    ensures Clock(list, m) <= x
  {
  }

  lemma TurnedConsistent(list: seq<Recording>, m: nat)
    requires list != [] && Consistent(list)
    ensures Consistent(Rotate(list, m % |list|))
  {
    forall r | r in Rotate(list, m % |list|) ensures r in list { }
  }

  lemma TurnedSchedule(out: seq<Slot>, list: seq<Recording>, midnight: real, m: nat, from: real, to: real)
    requires list != [] && from >= midnight && from < to && m == OnAt(list, from - midnight)
    requires LaidOut(out, Rotate(list, m % |list|), midnight + Clock(list, m), to)
    ensures Scheduled(out, list, midnight, from, to)
  {
    var turned, start := Rotate(list, m % |list|), midnight + Clock(list, m);
    assert start < to;
    hide At, Rotate, Clock;
    ClockStep(turned, 0);
    forall k: nat | k < |out| ensures out[k] == SlotAt(list, midnight, m + k) {
      RotateAt(list, m, k);
      RotateClock(list, m, k);
      RotateClock(list, m, k + 1);
    }
    if |out| > 0 {
      RotateClock(list, m, |out|);
    }
  }

  // ----- the two readings agree -----

  /** On one local day a scheduled slot that covers t is what a viewer joining at t gets, as far in. */
  lemma GuideAgreesWithJoin(out: seq<Slot>, list: seq<Recording>, midnight: real, from: real, to: real, k: nat, t: real)
    requires from >= midnight && Scheduled(out, list, midnight, from, to)
    requires k < |out| && t >= midnight && out[k].start <= t < out[k].end
    ensures list != []
    ensures var m := OnAt(list, t - midnight);
            At(list, m).id == out[k].recordingId && t - midnight - Clock(list, m) == t - out[k].start
  {
    var first := OnAt(list, from - midnight);
    CoversUnique(list, first + k, OnAt(list, t - midnight), t - midnight);
  }

  /** The slots follow each other without a gap, starting with the one on at from. */
  lemma GuideTiles(out: seq<Slot>, list: seq<Recording>, midnight: real, from: real, to: real)
    requires from >= midnight && Scheduled(out, list, midnight, from, to)
    ensures forall k :: 0 <= k < |out| - 1 ==> out[k].end == out[k + 1].start
    ensures out != [] ==> out[0].start <= from < out[0].end
    ensures from < to && list != [] && to - from <= 60.0 * (CAP - 1) as real ==> out != [] && out[|out| - 1].end >= to
  {
    if list != [] && from < to {
      var m := OnAt(list, from - midnight);
      if |out| == CAP {
        ClockAhead(list, m, CAP - 1);
        assert out[CAP - 1] == SlotAt(list, midnight, m + (CAP - 1));
        ClockMonotone(list, m + 1, m + CAP);
        ClockAhead(list, m + 1, CAP - 1);
      }
    }
  }

  lemma {:induction false} ClockAhead(list: seq<Recording>, m: nat, k: nat)
    requires list != []
    ensures Clock(list, m + k) >= Clock(list, m) + 60.0 * k as real
  {
    hide At;
    if k > 0 { ClockAhead(list, m, k - 1); }
  }

  /** Every instant of a window up to 4095 minutes long is in some slot. */
  lemma EveryInstantScheduled(out: seq<Slot>, list: seq<Recording>, midnight: real, from: real, to: real, t: real)
    returns (k: nat)
    requires from >= midnight && Scheduled(out, list, midnight, from, to)
    requires list != [] && from <= t < to && to - from <= 60.0 * (CAP - 1) as real
    ensures k < |out| && out[k].start <= t < out[k].end
  {
    GuideTiles(out, list, midnight, from, to);
    k := 0;
    while out[k].end <= t
      invariant k < |out| && out[k].start <= t
      decreases |out| - k
    {
      k := k + 1;
    }
  }

  // ----- across midnight -----

  /** x seconds after the next midnight, a guide laid from this one names what joining names, as far in. */
  ghost predicate SameSpot(list: seq<Recording>, day: real, x: real)
    requires list != [] && day >= 0.0 && x >= 0.0
  {
    var laid, joined := OnAt(list, day + x), OnAt(list, x);
    At(list, laid).id == At(list, joined).id && day + x - Clock(list, laid) == x - Clock(list, joined)
  }

  /** A day is a run of m whole slots, and the slots that start in the next day play what the lineup's first ones do. */
  ghost predicate DayFits(list: seq<Recording>, day: real, next: real, m: nat)
    requires list != []
  {
    Clock(list, m) == day && forall k: nat :: Clock(list, k) < next ==> At(list, m + k) == At(list, k)
  }

  lemma {:induction false} RepeatedClock(list: seq<Recording>, day: real, next: real, m: nat, k: nat)
    requires list != [] && DayFits(list, day, next, m)
    requires k > 0 ==> Clock(list, k - 1) < next
    ensures Clock(list, m + k) == day + Clock(list, k)
  {
    hide At;
    if k > 0 {
      ClockStep(list, k - 1);
      if k > 1 {
        ClockStep(list, k - 2);
      }
      RepeatedClock(list, day, next, m, k - 1);
      ClockStep(list, m + (k - 1));
    }
  }

  lemma StartCovers(list: seq<Recording>, m: nat, x: real)
    requires list != [] && x >= 0.0 && Clock(list, m) == x
    ensures OnAt(list, x) == m
  {
    hide At;
    ClockStep(list, m);
    CoversUnique(list, m, OnAt(list, x), x);
  }

  lemma {:induction false} SameSpotsRepeat(list: seq<Recording>, day: real, next: real, m: nat, k: nat)
    requires list != [] && Consistent(list) && day >= 0.0 && Clock(list, m) == day
    requires forall x | 0.0 <= x < next :: SameSpot(list, day, x)
    requires Clock(list, k) < next
    ensures Clock(list, m + k) == day + Clock(list, k) && At(list, m + k) == At(list, k)
  {
    hide At, Clock, Consistent;
    ClockStep(list, k);
    ClockGrows(list, k);
    if k > 0 {
      ClockStep(list, k - 1);
      SameSpotsRepeat(list, day, next, m, k - 1);
      ClockStep(list, m + (k - 1));
    }
    var x := Clock(list, k);
    assert SameSpot(list, day, x);
    StartCovers(list, k, x);
    StartCovers(list, m + k, day + x);
    AtConsistent(list, m + k, k);
  }

  lemma AtConsistent(list: seq<Recording>, a: nat, b: nat)
    requires list != [] && Consistent(list) && At(list, a).id == At(list, b).id
    ensures At(list, a) == At(list, b)
  {
  }

  lemma FittingDayAgrees(list: seq<Recording>, day: real, next: real, m: nat, x: real)
    requires list != [] && day >= 0.0 && DayFits(list, day, next, m) && 0.0 <= x < next
    ensures SameSpot(list, day, x)
  {
    hide At, Clock;
    var k := OnAt(list, x);
    CoversStart(list, k, x);
    assert At(list, m + k) == At(list, k);
    ClockStep(list, k);
    if k > 0 {
      ClockStep(list, k - 1);
    }
    RepeatedClock(list, day, next, m, k);
    RepeatedClock(list, day, next, m, k + 1);
    hide DayFits;
    CoversUnique(list, m + k, OnAt(list, day + x), day + x);
  }

  /**
    A guide laid a day before and joining agree at every instant of the local
    day of length next that follows, exactly when the day is whole slots and
    what starts in the next one is what the lineup starts with.
  */
  lemma AcrossMidnight(list: seq<Recording>, day: real, next: real)
    requires list != [] && Consistent(list) && day >= 0.0 && next > 0.0
    ensures (forall x | 0.0 <= x < next :: SameSpot(list, day, x)) <==> exists m :: DayFits(list, day, next, m)
  {
    hide At, Clock, Consistent, SameSpot, DayFits;
    if exists m :: DayFits(list, day, next, m) {
      var m :| DayFits(list, day, next, m);
      forall x | 0.0 <= x < next ensures SameSpot(list, day, x) {
        FittingDayAgrees(list, day, next, m, x);
      }
    }
    if forall x | 0.0 <= x < next :: SameSpot(list, day, x) {
      var m := AgreeingDayFits(list, day, next);
    }
  }

  lemma AgreeingDayFits(list: seq<Recording>, day: real, next: real) returns (m: nat)
    requires list != [] && Consistent(list) && day >= 0.0 && next > 0.0
    requires forall x | 0.0 <= x < next :: SameSpot(list, day, x)
    ensures DayFits(list, day, next, m)
  {
    hide At, Clock, Consistent;
    ClockStep(list, 0);
    assert Clock(list, 0) == 0.0 by { NoTime(list); }
    assert SameSpot(list, day, 0.0);
    StartCovers(list, 0, 0.0);
    m := OnAt(list, day);
    forall k: nat | Clock(list, k) < next ensures At(list, m + k) == At(list, k) {
      SameSpotsRepeat(list, day, next, m, k);
    }
  }

  lemma NoTime(list: seq<Recording>)
    requires list != []
    ensures Clock(list, 0) == 0.0
  {
  }

  /** Two recordings of a day each, the first listed twice: the guide and joining agree all through the next day. */
  lemma RepeatsCanAgree(x: real)
    requires 0.0 <= x < 86400.0
    ensures var a, b := Recording(1, false, 86400.0, 0, 0, 0), Recording(2, false, 86400.0, 0, 0, 0);
            SameSpot([a, a, b], 86400.0, x)
  {
    var list := [Recording(1, false, 86400.0, 0, 0, 0), Recording(1, false, 86400.0, 0, 0, 0),
                 Recording(2, false, 86400.0, 0, 0, 0)];
    ClockStep(list, 0);
    ClockStep(list, 1);
    CoversUnique(list, 0, OnAt(list, x), x);
    CoversUnique(list, 1, OnAt(list, 86400.0 + x), 86400.0 + x);
  }

  /** One long recording is 36400 seconds in at the next midnight by the guide, and at its start by joining. */
  lemma MidnightCanDisagree()
    ensures !SameSpot([Recording(1, false, 50000.0, 0, 0, 0)], 86400.0, 0.0)
  {
    var list := [Recording(1, false, 50000.0, 0, 0, 0)];
    ClockStep(list, 0);
    ClockStep(list, 1);
    CoversUnique(list, 1, OnAt(list, 86400.0), 86400.0);
    CoversUnique(list, 0, OnAt(list, 0.0), 0.0);
  }

  // ----- the guide in plain terms -----

  /**
    The guide lists the lineup over and over from some turn on, from its first
    recording when it starts at midnight; each takes its own length, or half an
    hour when that is under a minute; and there are at most 4096.
  */
  lemma SlotsFollowLineup(out: seq<Slot>, list: seq<Recording>, midnight: real, from: real, to: real) returns (turn: nat)
    requires from >= midnight && Scheduled(out, list, midnight, from, to) && out != []
    ensures |out| <= 4096 && (from == midnight ==> turn == 0 && out[0].start == midnight)
    ensures list != [] && forall k: nat :: k < |out| ==>
      var rec := list[(turn + k) % |list|];
      && out[k].recordingId == rec.id && out[k].title == rec.title
      && out[k].end == out[k].start + if rec.duration >= 60.0 then rec.duration else 1800.0
  {
    turn := OnAt(list, from - midnight);
    if from == midnight {
      FromMidnight(list, turn);
    }
    forall k: nat | k < |out|
      ensures var rec := list[(turn + k) % |list|];
        && out[k].recordingId == rec.id && out[k].title == rec.title
        && out[k].end == out[k].start + if rec.duration >= 60.0 then rec.duration else 1800.0
    {
      assert out[k] == SlotAt(list, midnight, turn + k);
      OneSlot(list, midnight, turn + k);
    }
  }

  lemma FromMidnight(list: seq<Recording>, turn: nat)
    requires list != [] && Covers(list, turn, 0.0)
    ensures turn == 0 && Clock(list, 0) == 0.0
  {
    assert Covers(list, 0, 0.0);
    CoversUnique(list, turn, 0, 0.0);
  }

  lemma OneSlot(list: seq<Recording>, start: real, m: nat)
    requires list != []
    ensures var slot, rec := SlotAt(list, start, m), list[m % |list|];
      && slot.recordingId == rec.id && slot.title == rec.title
      && slot.end == slot.start + if rec.duration >= 60.0 then rec.duration else 1800.0
  {
    assert Clock(list, m + 1) == Clock(list, m) + SlotSeconds(At(list, m));
  }
}
