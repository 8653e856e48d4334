/** The conflict check: whether spans need more channels than tuners, and which later airing still fits. */
module TunerConflict {
  import opened Collections
  import opened Sorting
  import opened TunerSweep
  import opened TunerPlan

  /** The distinct channels in use at instant t. */
  ghost function InUse(spans: seq<Span>, t: int): set<int> {
    set sp | sp in spans && sp.Covers(t) :: sp.channel
  }

  ghost predicate TooMany(spans: seq<Span>, n: nat) {
    exists t :: |InUse(spans, t)| > n
  }

  ghost function PositiveIndexes(spans: seq<Span>, upTo: nat): set<nat>
    requires upTo <= |spans|
  {
    set i: nat | i < upTo && spans[i].Positive()
  }

  lemma InUseIsOnAir(spans: seq<Span>, t: int)
    ensures InUse(spans, t) == OnAir(spans, PositiveIndexes(spans, |spans|), t)
  {
    var live := PositiveIndexes(spans, |spans|);
    forall c | c in InUse(spans, t) ensures c in OnAir(spans, live, t) {
      var sp :| sp in spans && sp.Covers(t) && sp.channel == c;
      var i :| 0 <= i < |spans| && spans[i] == sp;
      assert i in live && spans[i].Covers(t);
    }
  }

  method PositiveEvents(spans: seq<Span>) returns (events: seq<Event>)
    ensures EventsOf(spans, PositiveIndexes(spans, |spans|), events)
    ensures forall k :: 0 <= k < |events| ==> events[k].index in PositiveIndexes(spans, |spans|)
  {
    var raw: seq<Event> := [];
    for i := 0 to |spans|
      invariant forall e :: e in raw ==> e.index < |spans| && e in {StartOf(spans, e.index), EndOf(spans, e.index)}
      invariant forall j :: j in PositiveIndexes(spans, i) ==> StartOf(spans, j) in raw && EndOf(spans, j) in raw
      invariant forall e :: e in raw ==> spans[e.index].Positive()
    {
      if spans[i].end > spans[i].start {
        raw := raw + [Event(spans[i].start, i, true), Event(spans[i].end, i, false)];
      }
    }
    SortedEvents(spans, PositiveIndexes(spans, |spans|), raw);
    events := StableSort(raw, EventLe);
    forall k | 0 <= k < |events| ensures events[k] in raw {
      assert events[k] in multiset(events);
    }
  }

  lemma NoneActive(spans: seq<Span>, live: set<nat>, events: seq<Event>, n: nat)
    requires EventsOf(spans, live, events)
    ensures Tracks(spans, live, events, 0, map[]) && FitsBefore(spans, live, events, 0, n)
  {
    FitsStart(spans, live, events, n);
  }

  lemma ActiveInUse(spans: seq<Span>, live: set<nat>, events: seq<Event>, k: nat, active: map<nat, int>, n: nat)
    requires live == PositiveIndexes(spans, |spans|) && EventsOf(spans, live, events) && k < |events|
    requires Tracks(spans, live, events, k + 1, active) && events[k].isStart
    requires |active.Values| > n
    ensures TooMany(spans, n)
  {
    var t := events[k].at;
    forall c | c in active.Values ensures c in InUse(spans, t) {
      var i :| i in active && active[i] == c;
      ActiveCovers(spans, live, events, k, active, i);
    }
    SubsetSize(active.Values, InUse(spans, t));
  }

  lemma NoneTooMany(spans: seq<Span>, live: set<nat>, events: seq<Event>, n: nat)
    requires live == PositiveIndexes(spans, |spans|)
    requires FitsBefore(spans, live, events, |events|, n)
    ensures !TooMany(spans, n)
  {
    forall t ensures |InUse(spans, t)| <= n {
      InUseIsOnAir(spans, t);
      OnAirIsHeld(spans, live, t);
      assert Settled(events, |events|, t);
    }
  }

  /** True exactly when some instant needs more distinct channels than there are tuners. */
  method Overflows(spans: seq<Span>, tunerCount: int) returns (r: bool)
    ensures r <==> TooMany(spans, Tuners(tunerCount))
  {
    hide Tracks, EventsOf, FitsBefore, TooMany, Settled, OnAir, Sorted;
    var n := tunerCount;
    if n < 1 { n := 1; }
    var events := PositiveEvents(spans);
    ghost var live := PositiveIndexes(spans, |spans|);
    var active: map<nat, int> := map[];
    NoneActive(spans, live, events, n);
    for k := 0 to |events|
      invariant Tracks(spans, live, events, k, active)
      invariant FitsBefore(spans, live, events, k, n)
      invariant |active.Values| <= n
    {
      var ev := events[k];
      if !ev.isStart {
        TracksEnd(spans, live, events, k, active);
        SubsetSize((active - {ev.index}).Values, active.Values);
        active := active - {ev.index};
      } else {
        TracksStart(spans, live, events, k, active);
        active := active[ev.index := spans[ev.index].channel];
        var used := UniqueChannels(active);
        if used > n {
          ActiveInUse(spans, live, events, k, active, n);
          return true;
        }
      }
      FitsStep(spans, live, live, events, k, active, n);
    }
    NoneTooMany(spans, live, events, n);
    return false;
  }

  // ----- the two sweeps agree -----

  function UnskippedSpans(items: seq<Planned>): (r: seq<Span>)
    ensures forall sp :: sp in r <==> exists i :: 0 <= i < |items| && !items[i].skipped && sp == items[i].TunerSpan()
  {
    if items == [] then []
    else
      var last := items[|items| - 1];
      var rest := UnskippedSpans(items[..|items| - 1]);
      if last.skipped then rest else rest + [last.TunerSpan()]
  }

  lemma UnskippedInUse(items: seq<Planned>, t: int)
    ensures InUse(UnskippedSpans(items), t) == OnAir(Spans(items), Kept(items), t)
  {
    var a, b := InUse(UnskippedSpans(items), t), OnAir(Spans(items), Kept(items), t);
    forall c | c in a ensures c in b {
      var sp :| sp in UnskippedSpans(items) && sp.Covers(t) && sp.channel == c;
      var i :| 0 <= i < |items| && !items[i].skipped && sp == items[i].TunerSpan();
      assert i in Kept(items) && Spans(items)[i].Covers(t);
    }
    forall c | c in b ensures c in a {
      var i :| i in Kept(items) && Spans(items)[i].Covers(t) && Spans(items)[i].channel == c;
      assert items[i].TunerSpan() in UnskippedSpans(items);
    }
  }

  /** The conflict check on the unskipped airings says no exactly when they are safe. */
  lemma TooManyIsUnsafe(items: seq<Planned>, n: nat)
    ensures TooMany(UnskippedSpans(items), n) <==> !Safe(items, n)
  {
    forall t { UnskippedInUse(items, t); }
    if !Safe(items, n) {
      var t :| |OnAir(Spans(items), Kept(items), t)| > n;
      assert |InUse(UnskippedSpans(items), t)| > n;
    }
  }

  ghost predicate MarksConflict(before: seq<Planned>, after: seq<Planned>)
    requires |before| == |after|
  {
    exists i: nat :: NewlySkipped(before, after, i)
  }

  /** At some instant the unskipped airings the planner's sweep holds are too many. */
  ghost predicate HoldsTooMany(items: seq<Planned>, n: nat) {
    exists t :: |Held(Spans(items), Kept(items), t)| > n
  }

  lemma OutbidIsHeld(items: seq<Planned>, n: nat, i: nat)
    requires Justified(items, n, i)
    ensures HoldsTooMany(items, n)
  {
    var t, rivals :| Outbid(items, n, i, t, rivals);
    var spans := Spans(items);
    forall c | c in Channels(spans, rivals) ensures c in Held(spans, Kept(items), t) {
      var j :| j in rivals && spans[j].channel == c;
      assert j in Kept(items);
    }
    SubsetSize(Channels(spans, rivals), Held(spans, Kept(items), t));
  }

  /** The planner marks a conflict exactly when at some instant its sweep would hold too many channels. */
  lemma ConflictExactlyWhenHeld(before: seq<Planned>, after: seq<Planned>, n: nat)
    requires Resolved(before, after, n)
    ensures MarksConflict(before, after) <==> HoldsTooMany(before, n)
  {
    if MarksConflict(before, after) {
      var i :| NewlySkipped(before, after, i);
      OutbidIsHeld(before, n, i);
    } else {
      forall i: nat | i < |before| ensures after[i] == before[i] {
        assert !NewlySkipped(before, after, i);
      }
      assert after == before;
    }
  }

  lemma TooManyAreHeld(items: seq<Planned>, n: nat)
    ensures TooMany(UnskippedSpans(items), n) ==> HoldsTooMany(items, n)
    ensures (forall j :: j in Kept(items) ==> items[j].TunerSpan().Positive()) ==>
              (HoldsTooMany(items, n) <==> TooMany(UnskippedSpans(items), n))
  {
    var spans, kept := Spans(items), Kept(items);
    forall t
      ensures |InUse(UnskippedSpans(items), t)| <= |Held(spans, kept, t)|
      ensures (forall j :: j in kept ==> spans[j].Positive()) ==> InUse(UnskippedSpans(items), t) == Held(spans, kept, t)
    {
      UnskippedInUse(items, t);
      OnAirIsHeld(spans, kept, t);
    }
    hide Held, InUse;
    if TooMany(UnskippedSpans(items), n) {
      var t :| |InUse(UnskippedSpans(items), t)| > n;
      assert |Held(spans, kept, t)| > n;
    }
    if HoldsTooMany(items, n) && forall j :: j in kept ==> items[j].TunerSpan().Positive() {
      var t :| |Held(spans, kept, t)| > n;
      assert |InUse(UnskippedSpans(items), t)| > n;
    }
  }

  /**
    The two sweeps agree, whatever the spans and ids, exactly when the airings
    that end before they start do not alone make the planner hold too many
    channels; with positive spans they always agree.
  */
  lemma ConflictExactlyWhenTooMany(before: seq<Planned>, after: seq<Planned>, n: nat)
    requires Resolved(before, after, n)
    ensures TooMany(UnskippedSpans(before), n) ==> MarksConflict(before, after)
    ensures (MarksConflict(before, after) <==> TooMany(UnskippedSpans(before), n)) <==>
              (HoldsTooMany(before, n) ==> TooMany(UnskippedSpans(before), n))
    ensures (forall j :: j in Kept(before) ==> before[j].TunerSpan().Positive()) ==>
              (MarksConflict(before, after) <==> TooMany(UnskippedSpans(before), n))
  {
    hide HoldsTooMany, TooMany, MarksConflict, Resolved;
    ConflictExactlyWhenHeld(before, after, n);
    TooManyAreHeld(before, n);
  }

  function Sample(id: int, channel: int, start: int, end: int): Planned {
    Planned(Airing(id, channel, start, end, 0), 0, 0, 0, 0, false, false)
  }

  const SAMPLES := [Sample(1, 7, 10, 20), Sample(2, 8, 15, 15)]

  /**
    Two airings on one tuner, the later of no length: no instant needs two
    channels, and yet every resolution drops one, because in event order the
    later one ends before it starts and holds its channel from then on.
  */
  lemma ZeroLengthConflict(after: seq<Planned>)
    ensures !TooMany(UnskippedSpans(SAMPLES), 1)
    ensures Resolved(SAMPLES, after, 1) ==> MarksConflict(SAMPLES, after)
  {
    var spans, both := Spans(SAMPLES), Kept(SAMPLES);
    assert spans == [Span(10, 20, 7), Span(15, 15, 8)] && both == {0, 1};
    hide Spans, Kept, Resolved;
    forall t ensures |OnAir(spans, both, t)| <= 1 {
      assert OnAir(spans, both, t) <= {7};
      SubsetSize(OnAir(spans, both, t), {7});
    }
    TooManyIsUnsafe(SAMPLES, 1);
    assert spans[0].channel in Held(spans, both, 15) && spans[1].channel in Held(spans, both, 15);
    SubsetSize({7, 8}, Held(spans, both, 15));
    if Resolved(SAMPLES, after, 1) {
      ConflictExactlyWhenHeld(SAMPLES, after, 1);
    }
  }

  /** The airing that loses to no other one keeps its tuner. */
  lemma TopRankedKept(before: seq<Planned>, after: seq<Planned>, n: nat, i: nat)
    requires Resolved(before, after, n) && n >= 1
    requires i in Kept(before)
    requires forall j :: j in Kept(before) && j != i ==> before[j].LosesTo(before[i])
    ensures !NewlySkipped(before, after, i)
  {
    var spans := Spans(before);
    forall rivals | i in rivals && rivals <= Kept(before) && forall j :: j in rivals && j != i ==> !before[j].LosesTo(before[i])
      ensures |Channels(spans, rivals)| == 1
    {
      assert rivals == {i};
      assert Channels(spans, rivals) == {spans[i].channel};
    }
    assert forall t, rivals :: !Outbid(before, n, i, t, rivals);
  }

  /** With distinct airing ids every rival of a dropped airing strictly beats it. */
  lemma RivalsBeatTheDropped(before: seq<Planned>, after: seq<Planned>, n: nat, i: nat)
    returns (t: int, rivals: set<nat>)
    requires Resolved(before, after, n) && DistinctIds(before)
    requires NewlySkipped(before, after, i)
    ensures Outbid(before, n, i, t, rivals)
    ensures forall j :: j in rivals && j != i ==> before[i].LosesTo(before[j])
  {
    assert Justified(before, n, i);
    t, rivals :| Outbid(before, n, i, t, rivals);
  }

  // ----- a later airing for a dropped one -----

  const ZERO_TIME := 0

  predicate SameShowing(a: Airing, b: Airing) {
    (a.id > 0 && a.id == b.id) || (a.channel == b.channel && a.start != ZERO_TIME && a.start == b.start)
  }

  predicate AlreadyKept(items: seq<Planned>, air: Airing) {
    exists i :: 0 <= i < |items| && !items[i].skipped && SameShowing(items[i].airing, air)
  }

  /** The candidate may be recorded as well: it already is, or the plan with it added is still safe. */
  method FitsBeside(items: seq<Planned>, cand: Planned, tunerCount: int) returns (r: bool)
    requires !cand.skipped
    ensures r <==> AlreadyKept(items, cand.airing) || Safe(items + [cand], Tuners(tunerCount))
  {
    for i := 0 to |items|
      invariant forall j :: 0 <= j < i ==> items[j].skipped || !SameShowing(items[j].airing, cand.airing)
    {
      if !items[i].skipped && SameShowing(items[i].airing, cand.airing) {
        return true;
      }
    }
    var spans: seq<Span> := [];
    for i := 0 to |items|
      invariant spans == UnskippedSpans(items[..i])
    {
      assert items[..i + 1][..i] == items[..i];
      if items[i].skipped || SameShowing(items[i].airing, cand.airing) {
        continue;
      }
      spans := spans + [items[i].TunerSpan()];
    }
    assert items[..|items|] == items;
    spans := spans + [cand.TunerSpan()];
    assert spans == UnskippedSpans(items + [cand]) by {
      assert (items + [cand])[..|items|] == items;
    }
    var over := Overflows(spans, tunerCount);
    TooManyIsUnsafe(items + [cand], Tuners(tunerCount));
    r := !over;
  }

  predicate LibrarySkip(items: seq<Planned>, air: Airing) {
    exists i :: 0 <= i < |items| && SameShowing(items[i].airing, air) && items[i].skipped && !items[i].conflict
  }

  function Candidate(skipped: Planned, air: Airing): Planned {
    Planned(air, 0, skipped.padBefore, skipped.padAfter, ZERO_TIME, false, false)
  }

  /** A later showing of the skipped airing that fits; sameTitle and rulesMatch stand for the text rules. */
  ghost predicate Offerable(items: seq<Planned>, skipped: Planned, air: Airing, n: nat, from: int, to: int,
                            sameTitle: Airing -> bool, rulesMatch: Airing -> bool)
  {
    && air.end > from && air.start < to
    && sameTitle(air) && rulesMatch(air)
    && !SameShowing(air, skipped.airing) && air.start > skipped.airing.start
    && !LibrarySkip(items, air)
    && (AlreadyKept(items, air) || Safe(items + [Candidate(skipped, air)], n))
  }

  predicate Earlier(a: Airing, b: Airing) {
    a.start < b.start || (a.start == b.start && a.channel < b.channel)
  }

  method LaterAiring(items: seq<Planned>, skipped: Planned, airings: seq<Airing>, tunerCount: int, from: int, to: int,
                     sameTitle: Airing -> bool, rulesMatch: Airing -> bool)
    returns (found: bool, best: Airing)
    ensures found ==>
              && best in airings
              && Offerable(items, skipped, best, Tuners(tunerCount), from, to, sameTitle, rulesMatch)
    ensures found ==> forall air ::
              (air in airings && Offerable(items, skipped, air, Tuners(tunerCount), from, to, sameTitle, rulesMatch)) ==>
                best.start < air.start || (best.start == air.start && best.channel <= air.channel)
    ensures !found ==> forall air :: air in airings ==>
              !Offerable(items, skipped, air, Tuners(tunerCount), from, to, sameTitle, rulesMatch)
  {
    hide Safe;
    found, best := false, skipped.airing;
    for k := 0 to |airings|
      invariant found ==>
                  && best in airings
                  && Offerable(items, skipped, best, Tuners(tunerCount), from, to, sameTitle, rulesMatch)
      invariant forall j ::
                  (0 <= j < k && Offerable(items, skipped, airings[j], Tuners(tunerCount), from, to, sameTitle, rulesMatch)) ==>
                    found && !Earlier(airings[j], best)
    {
      var air := airings[k];
      if air.end <= from || air.start >= to {
        continue;
      }
      if SameShowing(air, skipped.airing) {
        continue;
      }
      if air.start <= skipped.airing.start || !sameTitle(air) {
        continue;
      }
      if !rulesMatch(air) || LibrarySkip(items, air) {
        continue;
      }
      var fits := FitsBeside(items, Candidate(skipped, air), tunerCount);
      if !fits {
        continue;
      }
      if !found || Earlier(air, best) {
        best := air;
        found := true;
      }
    }
  }
}
