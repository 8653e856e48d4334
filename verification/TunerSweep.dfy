/**
  The event sweep that both the planner and the conflict check run: tuner
  spans, their start and end events, and what the set of active spans says
  about every instant.
*/
module TunerSweep {
  import opened Collections
  import opened Sorting

  /** A half-open stretch of time on one channel; times are nanoseconds. */
  datatype Span = Span(start: int, end: int, channel: int) {
    predicate Covers(t: int) { start <= t < end }
    predicate Positive() { start < end }
  }

  datatype Event = Event(at: int, index: nat, isStart: bool) {
    /** At one instant the ends come before the starts. */
    function Key(): int { 2 * at + (if isStart then 1 else 0) }
  }

  predicate EventLe(a: Event, b: Event) { a.Key() <= b.Key() }

  function StartOf(spans: seq<Span>, i: nat): Event
    requires i < |spans|
  {
    Event(spans[i].start, i, true)
  }

  function EndOf(spans: seq<Span>, i: nat): Event
    requires i < |spans|
  {
    Event(spans[i].end, i, false)
  }

  ghost predicate Indexes(spans: seq<Span>, s: set<nat>) {
    forall i :: i in s ==> i < |spans|
  }

  ghost function Channels(spans: seq<Span>, s: set<nat>): set<int>
    requires Indexes(spans, s)
  {
    set i | i in s :: spans[i].channel
  }

  /** The distinct channels the live spans hold at instant t. */
  ghost function OnAir(spans: seq<Span>, live: set<nat>, t: int): set<int>
    requires Indexes(spans, live)
  {
    set i | i in live && spans[i].Covers(t) :: spans[i].channel
  }

  ghost predicate Fits(spans: seq<Span>, live: set<nat>, n: int)
    requires Indexes(spans, live)
  {
    forall t :: |OnAir(spans, live, t)| <= n
  }

  /**
    The distinct channels a sweep holds at instant t: those on the air, and
    those of spans that ended before they started in event order, which are
    never let go.
  */
  ghost function Held(spans: seq<Span>, live: set<nat>, t: int): set<int>
    requires Indexes(spans, live)
  {
    set i | i in live && spans[i].start <= t && (spans[i].Positive() ==> t < spans[i].end) :: spans[i].channel
  }

  ghost predicate FitsHeld(spans: seq<Span>, live: set<nat>, n: int)
    requires Indexes(spans, live)
  {
    forall t :: |Held(spans, live, t)| <= n
  }

  lemma OnAirIsHeld(spans: seq<Span>, live: set<nat>, t: int)
    requires Indexes(spans, live)
    ensures OnAir(spans, live, t) <= Held(spans, live, t) && |OnAir(spans, live, t)| <= |Held(spans, live, t)|
    ensures (forall i :: i in live ==> spans[i].Positive()) ==> OnAir(spans, live, t) == Held(spans, live, t)
  {
    SubsetSize(OnAir(spans, live, t), Held(spans, live, t));
  }

  ghost predicate Sorted(events: seq<Event>) {
    forall p, q :: 0 <= p < q < |events| ==> events[p].Key() <= events[q].Key()
  }

  /** The events are in time order, belong to the spans, and name every live span. */
  ghost predicate EventsOf(spans: seq<Span>, live: set<nat>, events: seq<Event>) {
    && Sorted(events)
    && Indexes(spans, live)
    && (forall e :: e in events ==> e.index < |spans| && e in {StartOf(spans, e.index), EndOf(spans, e.index)})
    && (forall i :: i in live ==> StartOf(spans, i) in events && EndOf(spans, i) in events)
  }

  lemma EventOrder()
    ensures TotalPreorder(EventLe)
  {
  }

  lemma SortedEvents(spans: seq<Span>, live: set<nat>, raw: seq<Event>)
    requires Indexes(spans, live)
    requires forall e :: e in raw ==> e.index < |spans| && e in {StartOf(spans, e.index), EndOf(spans, e.index)}
    requires forall i :: i in live ==> StartOf(spans, i) in raw && EndOf(spans, i) in raw
    ensures EventsOf(spans, live, StableSort(raw, EventLe))
  {
    EventOrder();
    StableSortSorts(raw, EventLe);
    var events := StableSort(raw, EventLe);
    forall e ensures e in events <==> e in raw {
      assert e in multiset(events) <==> e in multiset(raw);
    }
  }

  /** What the sweep's active map holds after the first k events. */
  ghost predicate Tracks(spans: seq<Span>, live: set<nat>, events: seq<Event>, k: nat, active: map<nat, int>)
    requires EventsOf(spans, live, events) && k <= |events|
  {
    && active.Keys <= live
    && (forall i :: i in active ==>
          && active[i] == spans[i].channel
          && StartOf(spans, i) in events[..k]
          && (spans[i].Positive() ==> EndOf(spans, i) !in events[..k]))
    && (forall i :: i in live && StartOf(spans, i) in events[..k] ==>
          i in active || (spans[i].Positive() && EndOf(spans, i) in events[..k]))
  }

  lemma PrefixStep(events: seq<Event>, k: nat, e: Event)
    requires k < |events|
    ensures e in events[..k + 1] <==> e in events[..k] || e == events[k]
  {
    assert events[..k + 1] == events[..k] + [events[k]];
  }

  /** In time order, events taken are no later than event k and events to come no earlier. */
  lemma KeyOrder(events: seq<Event>, k: nat, e: Event)
    requires Sorted(events) && k < |events|
    ensures e in events[..k] ==> e.Key() <= events[k].Key()
    ensures e in events && e !in events[..k] ==> events[k].Key() <= e.Key()
  {
    if e in events[..k] {
      var p :| 0 <= p < k && events[..k][p] == e;
    } else if e in events {
      assert forall q :: 0 <= q < k ==> events[q] == events[..k][q] && events[q] in events[..k];
      var p :| 0 <= p < |events| && events[p] == e;
    }
  }

  lemma TracksEnd(spans: seq<Span>, live: set<nat>, events: seq<Event>, k: nat, active: map<nat, int>)
    requires EventsOf(spans, live, events) && k < |events|
    requires Tracks(spans, live, events, k, active)
    requires !events[k].isStart
    ensures Tracks(spans, live, events, k + 1, active - {events[k].index})
  {
    assert events[k] in events;
    forall e { PrefixStep(events, k, e); }
    KeyOrder(events, k, StartOf(spans, events[k].index));
  }

  lemma TracksIgnored(spans: seq<Span>, live: set<nat>, events: seq<Event>, k: nat, active: map<nat, int>)
    requires EventsOf(spans, live, events) && k < |events|
    requires Tracks(spans, live, events, k, active)
    requires events[k].isStart && events[k].index !in live
    ensures Tracks(spans, live, events, k + 1, active)
  {
    forall e { PrefixStep(events, k, e); }
  }

  lemma TracksStart(spans: seq<Span>, live: set<nat>, events: seq<Event>, k: nat, active: map<nat, int>)
    requires EventsOf(spans, live, events) && k < |events|
    requires Tracks(spans, live, events, k, active)
    requires events[k].isStart && events[k].index in live
    ensures Tracks(spans, live, events, k + 1, active[events[k].index := spans[events[k].index].channel])
  {
    var i := events[k].index;
    assert events[k] in events;
    assert events[k] == StartOf(spans, i);
    forall e { PrefixStep(events, k, e); }
    KeyOrder(events, k, EndOf(spans, i));
  }

  /** Dropping one span keeps the map in step with the spans still live. */
  lemma TracksDrop(spans: seq<Span>, live: set<nat>, events: seq<Event>, k: nat, active: map<nat, int>, i: nat)
    requires EventsOf(spans, live, events) && k <= |events|
    requires Tracks(spans, live, events, k, active)
    ensures EventsOf(spans, live - {i}, events)
    ensures Tracks(spans, live - {i}, events, k, active - {i})
  {
  }

  lemma ActiveChannels(spans: seq<Span>, live: set<nat>, events: seq<Event>, k: nat, active: map<nat, int>)
    requires EventsOf(spans, live, events) && k <= |events|
    requires Tracks(spans, live, events, k, active)
    ensures active.Keys <= live && Indexes(spans, active.Keys)
    ensures Channels(spans, active.Keys) == active.Values
  {
    var a, b := Channels(spans, active.Keys), active.Values;
    forall c | c in b ensures c in a {
      var i :| i in active && active[i] == c;
      assert spans[i].channel == c;
    }
    forall c | c in a ensures c in b {
      var i :| i in active.Keys && spans[i].channel == c;
      assert active[i] == c;
    }
  }

  /** A positive active span covers the instant of the start event just taken. */
  lemma ActiveCovers(spans: seq<Span>, live: set<nat>, events: seq<Event>, k: nat, active: map<nat, int>, i: nat)
    requires EventsOf(spans, live, events) && k < |events|
    requires Tracks(spans, live, events, k + 1, active)
    requires events[k].isStart && i in active
    ensures i < |spans| && spans[i].start <= events[k].at
    ensures spans[i].Positive() ==> spans[i].Covers(events[k].at)
  {
    PrefixStep(events, k, StartOf(spans, i));
    PrefixStep(events, k, EndOf(spans, i));
    KeyOrder(events, k, StartOf(spans, i));
    KeyOrder(events, k, EndOf(spans, i));
  }

  /** No event after the first k happens at or before instant t. */
  ghost predicate Settled(events: seq<Event>, k: nat, t: int)
    requires k <= |events|
  {
    k == |events| || 2 * t + 1 < events[k].Key()
  }

  lemma HeldIsActive(spans: seq<Span>, live: set<nat>, events: seq<Event>, k: nat, active: map<nat, int>, t: int, i: nat)
    requires EventsOf(spans, live, events) && k <= |events|
    requires Tracks(spans, live, events, k, active)
    requires Settled(events, k, t)
    requires k == 0 || events[k - 1].Key() <= 2 * t + 1
    requires i in live && spans[i].start <= t && (spans[i].Positive() ==> t < spans[i].end)
    ensures i in active && active[i] == spans[i].channel
  {
    if k < |events| {
      KeyOrder(events, k, StartOf(spans, i));
    } else {
      assert events[..k] == events;
    }
    if k > 0 {
      KeyOrder(events, k - 1, EndOf(spans, i));
      PrefixStep(events, k - 1, EndOf(spans, i));
    }
  }

  /** Between two events every live span the sweep holds is in the active map. */
  lemma AllHeldActive(spans: seq<Span>, live: set<nat>, events: seq<Event>, k: nat, active: map<nat, int>, t: int)
    requires EventsOf(spans, live, events) && k <= |events|
    requires Tracks(spans, live, events, k, active)
    requires Settled(events, k, t)
    requires k == 0 || events[k - 1].Key() <= 2 * t + 1
    ensures Held(spans, live, t) <= active.Values
    ensures |Held(spans, live, t)| <= |active.Values|
  {
    forall c | c in Held(spans, live, t) ensures c in active.Values {
      var i :| i in live && spans[i].start <= t && (spans[i].Positive() ==> t < spans[i].end) && spans[i].channel == c;
      HeldIsActive(spans, live, events, k, active, t, i);
      assert i in active && active[i] == c;
    }
    SubsetSize(Held(spans, live, t), active.Values);
  }

  /** Every instant before event k is within the n tuners. */
  ghost predicate FitsBefore(spans: seq<Span>, live: set<nat>, events: seq<Event>, k: nat, n: int)
    requires Indexes(spans, live) && k <= |events|
  {
    forall t :: Settled(events, k, t) ==> |Held(spans, live, t)| <= n
  }

  lemma FitsStart(spans: seq<Span>, live: set<nat>, events: seq<Event>, n: int)
    requires EventsOf(spans, live, events) && n >= 0
    ensures FitsBefore(spans, live, events, 0, n)
  {
    forall t | Settled(events, 0, t) ensures |Held(spans, live, t)| <= n {
      AllHeldActive(spans, live, events, 0, map[], t);
    }
  }

  lemma HeldShrinks(spans: seq<Span>, live: set<nat>, fewer: set<nat>, t: int)
    requires Indexes(spans, live) && fewer <= live
    ensures |Held(spans, fewer, t)| <= |Held(spans, live, t)|
  {
    SubsetSize(Held(spans, fewer, t), Held(spans, live, t));
  }

  /** One event further: the instants it adds see only active spans. */
  lemma FitsStep(spans: seq<Span>, before: set<nat>, live: set<nat>, events: seq<Event>, k: nat, active: map<nat, int>,
                 n: int)
    requires EventsOf(spans, before, events) && live <= before && k < |events|
    requires FitsBefore(spans, before, events, k, n)
    requires EventsOf(spans, live, events) && Tracks(spans, live, events, k + 1, active)
    requires |active.Values| <= n
    ensures FitsBefore(spans, live, events, k + 1, n)
  {
    hide Tracks, Held;
    forall t | Settled(events, k + 1, t) ensures |Held(spans, live, t)| <= n {
      if Settled(events, k, t) {
        HeldShrinks(spans, before, live, t);
      } else {
        AllHeldActive(spans, live, events, k + 1, active, t);
      }
    }
  }

  /** Counts the distinct channels of the active map, visiting it in any order. */
  method UniqueChannels(active: map<nat, int>) returns (n: nat)
    ensures n == |active.Values|
  {
    var seen: set<int> := {};
    var left := active.Keys;
    while left != {}
      invariant left <= active.Keys
      invariant seen == set i | i in active.Keys - left :: active[i]
      decreases left
    {
      var i :| i in left;
      seen := seen + {active[i]};
      left := left - {i};
    }
    assert seen == active.Values;
    n := |seen|;
  }
}
