/** The recording planner: which airings keep a tuner when too many channels overlap. */
module TunerPlan {
  import opened Collections
  import opened Sorting
  import opened TunerSweep

  const MINUTE := 60_000_000_000

  /** tail is the extra time a sports listing without a matched game records. */
  datatype Airing = Airing(id: int, channel: int, start: int, end: int, tail: int)

  datatype Planned = Planned(
    airing: Airing, priority: int, padBefore: int, padAfter: int,
    runsUntil: int, skipped: bool, conflict: bool)
  {
    /** How long the airing holds a tuner. */
    function TunerSpan(): Span {
      var start := airing.start - padBefore * MINUTE;
      var end := airing.end + padAfter * MINUTE + airing.tail;
      Span(start, if runsUntil > end then runsUntil else end, airing.channel)
    }

    predicate LosesTo(other: Planned) {
      if priority != other.priority then priority < other.priority
      else if airing.start != other.airing.start then airing.start > other.airing.start
      else airing.id > other.airing.id
    }
  }

  function Spans(items: seq<Planned>): (r: seq<Span>)
    ensures |r| == |items|
    ensures forall i :: 0 <= i < |items| ==> r[i] == items[i].TunerSpan()
  {
    seq(|items|, i requires 0 <= i < |items| => items[i].TunerSpan())
  }

  ghost function Kept(items: seq<Planned>): (r: set<nat>)
    ensures Indexes(Spans(items), r)
  {
    set i: nat | i < |items| && !items[i].skipped
  }

  function Tuners(tunerCount: int): nat {
    if tunerCount < 1 then 1 else tunerCount
  }

  /** The planner's promise: at no instant do the kept airings need more channels than tuners. */
  ghost predicate Safe(items: seq<Planned>, n: nat) {
    Fits(Spans(items), Kept(items), n)
  }

  /** Safe with every span the sweep never lets go of counted from its start on. */
  ghost predicate SafeHeld(items: seq<Planned>, n: nat) {
    FitsHeld(Spans(items), Kept(items), n)
  }

  ghost predicate DistinctIds(items: seq<Planned>) {
    forall i, j :: 0 <= i < j < |items| ==> items[i].airing.id != items[j].airing.id
  }

  /** Dropping i is called for at instant t: i and rivals none of which loses to it need more than n channels. */
  ghost predicate Outbid(items: seq<Planned>, n: nat, i: nat, t: int, rivals: set<nat>) {
    && i in rivals && rivals <= Kept(items)
    && |Channels(Spans(items), rivals)| > n
    && (forall j :: j in rivals && j != i ==> !items[j].LosesTo(items[i]))
    && (forall j :: j in rivals ==>
          && items[j].TunerSpan().start <= t
          && (items[j].TunerSpan().Positive() ==> items[j].TunerSpan().Covers(t)))
  }

  ghost predicate Justified(items: seq<Planned>, n: nat, i: nat) {
    exists t, rivals :: Outbid(items, n, i, t, rivals)
  }

  ghost predicate NewlySkipped(before: seq<Planned>, after: seq<Planned>, i: nat)
    requires |before| == |after|
  {
    i < |before| && !before[i].skipped && after[i].skipped
  }

  /** Everything the planner guarantees about one resolution. */
  ghost predicate Resolved(before: seq<Planned>, after: seq<Planned>, n: nat) {
    && |after| == |before|
    && (forall i :: 0 <= i < |before| ==>
          after[i] == before[i] || (!before[i].skipped && after[i] == before[i].(skipped := true, conflict := true)))
    && Safe(after, n) && SafeHeld(after, n)
    && (forall i: nat :: NewlySkipped(before, after, i) ==> Justified(before, n, i))
  }

  // ----- the deterministic plan that every run computes when airing ids differ -----

  lemma {:induction false} WorstExists(items: seq<Planned>, s: set<nat>)
    requires s != {} && forall i :: i in s ==> i < |items|
    ensures exists i :: i in s && forall j :: j in s ==> !items[j].LosesTo(items[i])
    decreases s
  {
    var i :| i in s;
    if s == {i} {
      assert forall j :: j in s ==> !items[j].LosesTo(items[i]);
    } else {
      WorstExists(items, s - {i});
      var k :| k in s - {i} && forall j :: j in s - {i} ==> !items[j].LosesTo(items[k]);
      if items[i].LosesTo(items[k]) {
        assert forall j :: j in s ==> j == i || j in s - {i};
        assert forall j :: j in s ==> !items[j].LosesTo(items[i]);
      } else {
        assert forall j :: j in s ==> j == i || j in s - {i};
        assert forall j :: j in s ==> !items[j].LosesTo(items[k]);
      }
    }
  }

  ghost predicate Lowest(items: seq<Planned>, s: set<nat>, i: nat) {
    && (forall j :: j in s ==> j < |items|)
    && i in s && forall j :: j in s ==> !items[j].LosesTo(items[i])
  }

  ghost function Worst(items: seq<Planned>, s: set<nat>): (i: nat)
    requires s != {} && forall i :: i in s ==> i < |items|
    ensures Lowest(items, s, i)
  {
    WorstExists(items, s);
    var i :| i in s && forall j :: j in s ==> !items[j].LosesTo(items[i]);
    i
  }

  lemma LowestUnique(items: seq<Planned>, s: set<nat>, i: nat, j: nat)
    requires DistinctIds(items) && Lowest(items, s, i) && Lowest(items, s, j)
    ensures i == j
  {
  }

  /** Drops the lowest active airings until the rest fit n channels. */
  ghost function Evict(items: seq<Planned>, n: nat, active: set<nat>): (r: set<nat>)
    requires Indexes(Spans(items), active)
    ensures r <= active
    decreases active
  {
    if active == {} || |Channels(Spans(items), active)| <= n then active
    else Evict(items, n, active - {Worst(items, active)})
  }

  /** (kept, active) after the first k events. */
  ghost function Sweep(items: seq<Planned>, n: nat, events: seq<Event>, k: nat): (r: (set<nat>, set<nat>))
    requires k <= |events| && forall e :: e in events ==> e.index < |items|
    ensures r.0 <= Kept(items) && Indexes(Spans(items), r.1)
  {
    if k == 0 then (Kept(items), {})
    else
      var (kept, active) := Sweep(items, n, events, k - 1);
      var ev := events[k - 1];
      if !ev.isStart then (kept, active - {ev.index})
      else if ev.index !in kept then (kept, active)
      else
        var left := Evict(items, n, active + {ev.index});
        (kept - ((active + {ev.index}) - left), left)
  }

  function RawEvents(spans: seq<Span>, upTo: nat): (r: seq<Event>)
    requires upTo <= |spans|
    ensures forall e :: e in r ==> e.index < upTo && e in {StartOf(spans, e.index), EndOf(spans, e.index)}
    ensures forall i: nat :: i < upTo ==> StartOf(spans, i) in r && EndOf(spans, i) in r
  {
    if upTo == 0 then []
    else RawEvents(spans, upTo - 1) + [StartOf(spans, upTo - 1), EndOf(spans, upTo - 1)]
  }

  ghost function Timeline(items: seq<Planned>): (events: seq<Event>)
    ensures EventsOf(Spans(items), Kept(items), events)
  {
    var raw := RawEvents(Spans(items), |items|);
    SortedEvents(Spans(items), Kept(items), raw);
    StableSort(raw, EventLe)
  }

  ghost function KeptByPlan(items: seq<Planned>, n: nat): set<nat> {
    var events := Timeline(items);
    Sweep(items, n, events, |events|).0
  }

  ghost predicate FollowsPlan(before: seq<Planned>, after: seq<Planned>, n: nat) {
    && |after| == |before|
    && forall i: nat :: i < |before| ==>
         after[i] == if before[i].skipped || i in KeptByPlan(before, n) then before[i]
                     else before[i].(skipped := true, conflict := true)
  }

  // ----- the planner -----

  method LowestPriority(items: array<Planned>, active: map<nat, int>) returns (loser: nat)
    requires active != map[] && Indexes(Spans(items[..]), active.Keys)
    ensures Lowest(items[..], active.Keys, loser)
    ensures forall j :: j in active ==>
      var other, lost := items[j], items[loser];
      || other.priority > lost.priority
      || (other.priority == lost.priority && other.airing.start < lost.airing.start)
      || (other.priority == lost.priority && other.airing.start == lost.airing.start && other.airing.id <= lost.airing.id)
  {
    var left := active.Keys;
    assert left == {} ==> active == map[];
    var first :| first in left;
    loser := first;
    left := left - {first};
    while left != {}
      invariant left <= active.Keys && loser in active.Keys - left
      invariant forall j :: j in active.Keys - left ==> !items[j].LosesTo(items[loser])
      decreases left
    {
      var idx :| idx in left;
      if items[idx].LosesTo(items[loser]) {
        loser := idx;
      }
      left := left - {idx};
    }
  }

  /** The items after the airings outside kept were dropped. */
  ghost predicate Marked(before: seq<Planned>, now: seq<Planned>, kept: set<nat>) {
    && |now| == |before| && kept <= Kept(before)
    && forall i: nat :: i < |before| ==>
         now[i] == if before[i].skipped || i in kept then before[i]
                   else before[i].(skipped := true, conflict := true)
  }

  lemma MarkedKept(before: seq<Planned>, now: seq<Planned>, kept: set<nat>)
    requires Marked(before, now, kept)
    ensures |now| == |before| && kept <= Kept(before) && Kept(now) == kept && Spans(now) == Spans(before)
    ensures forall i, j :: 0 <= i < |now| && 0 <= j < |now| ==>
              (now[i].LosesTo(now[j]) <==> before[i].LosesTo(before[j]))
  {
  }

  lemma SetDrop(kept: set<nat>, start: set<nat>, active: set<nat>, left: set<nat>, i: nat)
    requires left == kept - (start - active) && i in active && active <= start
    ensures left - {i} == kept - (start - (active - {i}))
  {
  }

  lemma MarkOne(before: seq<Planned>, now: seq<Planned>, kept: set<nat>, i: nat)
    requires Marked(before, now, kept) && i in kept
    ensures i < |now| && Marked(before, now[i := now[i].(skipped := true, conflict := true)], kept - {i})
  {
  }

  lemma LowestMarked(before: seq<Planned>, now: seq<Planned>, kept: set<nat>, active: set<nat>, i: nat)
    requires Marked(before, now, kept) && Lowest(now, active, i)
    ensures Lowest(before, active, i)
  {
    MarkedKept(before, now, kept);
  }

  lemma EvictDone(items: seq<Planned>, n: nat, active: set<nat>)
    requires Indexes(Spans(items), active)
    requires |Channels(Spans(items), active)| <= n
    ensures Evict(items, n, active) == active
  {
  }

  lemma EvictLowest(items: seq<Planned>, n: nat, active: set<nat>, loser: nat)
    requires DistinctIds(items) && Lowest(items, active, loser)
    requires |Channels(Spans(items), active)| > n
    ensures Evict(items, n, active) == Evict(items, n, active - {loser})
  {
    LowestUnique(items, active, loser, Worst(items, active));
  }

  lemma Unjustified(before: seq<Planned>, n: nat, kept: set<nat>, events: seq<Event>, k: nat, active: map<nat, int>, loser: nat)
    requires EventsOf(Spans(before), kept, events) && kept <= Kept(before)
    requires k < |events| && events[k].isStart
    requires Tracks(Spans(before), kept, events, k + 1, active)
    requires |active.Values| > n
    requires Lowest(before, active.Keys, loser)
    ensures Justified(before, n, loser)
  {
    hide Tracks, EventsOf, Channels, Planned.LosesTo, Planned.TunerSpan;
    var spans := Spans(before);
    ActiveChannels(spans, kept, events, k + 1, active);
    forall j | j in active.Keys
      ensures spans[j].start <= events[k].at && (spans[j].Positive() ==> spans[j].Covers(events[k].at))
    {
      ActiveCovers(spans, kept, events, k + 1 - 1, active, j);
    }
    assert Outbid(before, n, loser, events[k].at, active.Keys);
  }

  /** Makes room for the airing that starts at event k. */
  method DropLowest(items: array<Planned>, n: nat, ghost before: seq<Planned>, ghost kept: set<nat>,
                    ghost events: seq<Event>, ghost k: nat, start: map<nat, int>)
    returns (active: map<nat, int>, ghost left: set<nat>)
    requires n >= 1 && Marked(before, items[..], kept)
    requires EventsOf(Spans(before), kept, events) && k < |events| && events[k].isStart
    requires Tracks(Spans(before), kept, events, k + 1, start)
    modifies items
    ensures left <= kept && Marked(before, items[..], left)
    ensures EventsOf(Spans(before), left, events) && Tracks(Spans(before), left, events, k + 1, active)
    ensures |active.Values| <= n
    ensures forall i :: i in kept - left ==> Justified(before, n, i)
    ensures DistinctIds(before) ==>
              active.Keys == Evict(before, n, start.Keys) && left == kept - (start.Keys - active.Keys)
  {
    hide Tracks, EventsOf, Justified, Channels, Lowest, Evict, Marked, DistinctIds, Indexes;
    active, left := start, kept;
    ActiveChannels(Spans(before), kept, events, k + 1, start);
    MarkedKept(before, items[..], kept);
    var used := UniqueChannels(active);
    while used > n && |active| > 0
      invariant active.Keys <= left <= kept <= Kept(before) && Marked(before, items[..], left)
      invariant Spans(items[..]) == Spans(before) && Indexes(Spans(before), active.Keys)
      invariant EventsOf(Spans(before), left, events) && Tracks(Spans(before), left, events, k + 1, active)
      invariant used == |active.Values| && Channels(Spans(before), active.Keys) == active.Values
      invariant forall i :: i in kept - left ==> Justified(before, n, i)
      invariant active.Keys <= start.Keys && left == kept - (start.Keys - active.Keys)
      invariant DistinctIds(before) ==> Evict(before, n, active.Keys) == Evict(before, n, start.Keys)
      decreases |active|
    {
      ghost var now := items[..];
      var loser := LowestPriority(items, active);
      assert items[..] == now;
      LowestMarked(before, now, left, active.Keys, loser);
      Unjustified(before, n, left, events, k, active, loser);
      if DistinctIds(before) {
        EvictLowest(before, n, active.Keys, loser);
      }
      TracksDrop(Spans(before), left, events, k + 1, active, loser);
      MarkOne(before, now, left, loser);
      items[loser] := items[loser].(skipped := true, conflict := true);
      assert items[..] == now[loser := now[loser].(skipped := true, conflict := true)];
      SetDrop(kept, start.Keys, active.Keys, left, loser);
      left := left - {loser};
      MarkedKept(before, items[..], left);
      assert (active - {loser}).Keys == active.Keys - {loser};
      active := active - {loser};
      ActiveChannels(Spans(before), left, events, k + 1, active);
      used := UniqueChannels(active);
    }
    EvictDone(before, n, active.Keys);
  }

  lemma EventKinds(spans: seq<Span>, live: set<nat>, events: seq<Event>, k: nat)
    requires EventsOf(spans, live, events) && k < |events|
    ensures forall e :: e in events ==> e.index < |spans|
    ensures events[k].index < |spans|
  {
    assert events[k] in events;
  }

  lemma SweepStarts(before: seq<Planned>, events: seq<Event>, n: nat)
    requires EventsOf(Spans(before), Kept(before), events)
    ensures Tracks(Spans(before), Kept(before), events, 0, map[])
    ensures FitsBefore(Spans(before), Kept(before), events, 0, n)
    ensures forall e :: e in events ==> e.index < |before|
    ensures Sweep(before, n, events, 0) == (Kept(before), {})
    ensures Marked(before, before, Kept(before))
  {
    FitsStart(Spans(before), Kept(before), events, n);
  }

  lemma SweepStep(before: seq<Planned>, n: nat, events: seq<Event>, k: nat, was: set<nat>, wasActive: set<nat>,
                  kept: set<nat>, active: set<nat>)
    requires k < |events| && forall e :: e in events ==> e.index < |before|
    requires DistinctIds(before) ==> Sweep(before, n, events, k) == (was, wasActive)
    requires wasActive <= was <= Kept(before)
    requires if !events[k].isStart then kept == was && active == wasActive - {events[k].index}
             else if events[k].index !in was then kept == was && active == wasActive
             else DistinctIds(before) ==>
                    active == Evict(before, n, wasActive + {events[k].index}) &&
                    kept == was - (wasActive + {events[k].index} - active)
    ensures DistinctIds(before) ==> Sweep(before, n, events, k + 1) == (kept, active)
  {
  }

  lemma Finish(before: seq<Planned>, after: seq<Planned>, kept: set<nat>, events: seq<Event>, n: nat)
    requires EventsOf(Spans(before), kept, events) && Marked(before, after, kept)
    requires events == Timeline(before)
    requires FitsBefore(Spans(before), kept, events, |events|, n)
    requires forall i :: i in Kept(before) - kept ==> Justified(before, n, i)
    requires DistinctIds(before) ==> Sweep(before, n, events, |events|).0 == kept
    ensures Resolved(before, after, n)
    ensures DistinctIds(before) ==> FollowsPlan(before, after, n)
  {
    hide Justified, EventsOf, OnAir, Held, Channels;
    MarkedKept(before, after, kept);
    forall t ensures |Held(Spans(before), kept, t)| <= n && |OnAir(Spans(before), kept, t)| <= n {
      assert Settled(events, |events|, t);
      OnAirIsHeld(Spans(before), kept, t);
    }
  }

  /** The start and end events of every airing, in the order the sweep takes them. */
  method TunerEvents(items: array<Planned>) returns (events: seq<Event>)
    ensures events == Timeline(items[..])
  {
    var spans := Spans(items[..]);
    var raw: seq<Event> := [];
    for i := 0 to items.Length
      invariant raw == RawEvents(spans, i)
    {
      raw := raw + [Event(spans[i].start, i, true), Event(spans[i].end, i, false)];
    }
    events := StableSort(raw, EventLe);
  }

  /**
    Marks airings skipped until every instant fits the tuners. The choice of a
    loser walks a map in any order; with distinct airing ids that order does not
    change the plan.
  */
  method ResolvePriority(items: array<Planned>, tunerCount: int)
    modifies items
    ensures Resolved(old(items[..]), items[..], Tuners(tunerCount))
    ensures DistinctIds(old(items[..])) ==> FollowsPlan(old(items[..]), items[..], Tuners(tunerCount))
  {
    hide Tracks, EventsOf, Justified, Channels, Evict, Marked, DistinctIds, FitsBefore, Settled, Sweep, OnAir, Held, Timeline,
      Resolved, FollowsPlan;
    var n := tunerCount;
    if n < 1 { n := 1; }
    ghost var before := items[..];
    var spans := Spans(items[..]);
    ghost var kept := Kept(before);
    var events := TunerEvents(items);
    var active: map<nat, int> := map[];
    SweepStarts(before, events, n);
    for k := 0 to |events|
      invariant Marked(before, items[..], kept) && Indexes(spans, kept)
      invariant EventsOf(spans, kept, events) && Tracks(spans, kept, events, k, active)
      invariant FitsBefore(spans, kept, events, k, n)
      invariant |active.Values| <= n
      invariant forall i :: i in Kept(before) - kept ==> Justified(before, n, i)
      invariant DistinctIds(before) ==> Sweep(before, n, events, k) == (kept, active.Keys)
    {
      var ev := events[k];
      ghost var was, wasActive := kept, active.Keys;
      MarkedKept(before, items[..], kept);
      EventKinds(spans, kept, events, k);
      ActiveChannels(spans, kept, events, k, active);
      if !ev.isStart {
        TracksEnd(spans, kept, events, k, active);
        SubsetSize((active - {ev.index}).Values, active.Values);
        assert (active - {ev.index}).Keys == active.Keys - {ev.index};
        active := active - {ev.index};
        SweepStep(before, n, events, k, was, wasActive, kept, active.Keys);
      } else if items[ev.index].skipped {
        TracksIgnored(spans, kept, events, k, active);
        SweepStep(before, n, events, k, was, wasActive, kept, active.Keys);
      } else {
        TracksStart(spans, kept, events, k, active);
        var grown := active[ev.index := items[ev.index].airing.channel];
        assert grown.Keys == active.Keys + {ev.index};
        active, kept := DropLowest(items, n, before, kept, events, k, grown);
        SweepStep(before, n, events, k, was, wasActive, kept, active.Keys);
      }
      FitsStep(spans, was, kept, events, k, active, n);
    }
    Finish(before, items[..], kept, events, n);
  }
}
