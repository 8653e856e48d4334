/** What the planner promises, said of the fields of the airings alone. */
module PlannerPromises {
  import opened Collections
  import opened TunerSweep
  import opened TunerPlan
  import opened TunerConflict

  /**
    An airing takes its tuner padBefore minutes early and keeps it padAfter
    minutes and its tail past the end, and as long as a recording of it runs.
  */
  predicate Taken(p: Planned, t: int) {
    && p.airing.start - p.padBefore * 60_000_000_000 <= t
    && (t < p.airing.end + p.padAfter * 60_000_000_000 + p.airing.tail || t < p.runsUntil)
  }

  /** It would end before it starts. */
  predicate Backwards(p: Planned) {
    !Taken(p, p.airing.start - p.padBefore * 60_000_000_000)
  }

  lemma TakenIsCovered(p: Planned, t: int)
    ensures Taken(p, t) <==> p.TunerSpan().Covers(t)
    ensures Backwards(p) <==> !p.TunerSpan().Positive()
  {
  }

  /** The channels that the airings a plan keeps take a tuner for at instant t. */
  ghost function ChannelsTaken(plan: seq<Planned>, t: int): set<int> {
    set i: nat | i < |plan| && !plan[i].skipped && Taken(plan[i], t) :: plan[i].airing.channel
  }

  /** Two airings that both need a tuner, and the one to keep: the higher priority, then the earlier start, then the lower id. */
  predicate Preferred(p: Planned, other: Planned) {
    || p.priority > other.priority
    || (p.priority == other.priority && p.airing.start < other.airing.start)
    || (p.priority == other.priority && p.airing.start == other.airing.start && p.airing.id <= other.airing.id)
  }

  lemma KeptOverIsPreferred(p: Planned, other: Planned)
    ensures Preferred(p, other) <==> !p.LosesTo(other)
  {
  }

  /** At instant t airing i and others, all preferred to it, all wanted, are on too many channels. */
  ghost predicate NoRoomAt(before: seq<Planned>, tunerCount: int, i: nat, t: int, rivals: set<nat>) {
    && i in rivals
    && (forall j :: j in rivals ==> j < |before| && !before[j].skipped)
    && (forall j :: j in rivals ==>
          && before[j].airing.start - before[j].padBefore * 60_000_000_000 <= t
          && (Taken(before[j], t) || Backwards(before[j])))
    && (forall j :: j in rivals && j != i ==> Preferred(before[j], before[i]))
    && |set j | j in rivals :: before[j].airing.channel| > if tunerCount > 1 then tunerCount else 1
  }

  /** At no instant are more channels in use than there are tuners, and one at least. */
  lemma PlanFitsTuners(before: seq<Planned>, after: seq<Planned>, tunerCount: int, t: int)
    requires Resolved(before, after, Tuners(tunerCount))
    ensures |ChannelsTaken(after, t)| <= if tunerCount > 1 then tunerCount else 1
  {
    OnAirIsTaken(after, t);
  }

  /** Every airing dropped had to be: others that are preferred left it no tuner. */
  lemma DropsHaveReasons(before: seq<Planned>, after: seq<Planned>, tunerCount: int, i: nat)
    requires Resolved(before, after, Tuners(tunerCount))
    requires i < |before| && !before[i].skipped && after[i].skipped
    ensures exists t, rivals :: NoRoomAt(before, tunerCount, i, t, rivals)
  {
    assert NewlySkipped(before, after, i);
    var t, rivals :| Outbid(before, Tuners(tunerCount), i, t, rivals);
    forall j | j in rivals
      ensures j < |before| && !before[j].skipped && (Taken(before[j], t) || Backwards(before[j]))
    {
      TakenIsCovered(before[j], t);
    }
    forall j | j in rivals && j != i ensures Preferred(before[j], before[i]) {
      KeptOverIsPreferred(before[j], before[i]);
    }
    assert (set j | j in rivals :: before[j].airing.channel) == Channels(Spans(before), rivals);
    assert NoRoomAt(before, tunerCount, i, t, rivals);
  }

  lemma NeverAlone(before: seq<Planned>, tunerCount: int, i: nat, t: int, rivals: set<nat>)
    requires NoRoomAt(before, tunerCount, i, t, rivals)
    ensures exists j :: j in rivals && j != i
  {
    if rivals <= {i} {
      assert (set j | j in rivals :: before[j].airing.channel) <= {before[i].airing.channel};
      SubsetSize(set j | j in rivals :: before[j].airing.channel, {before[i].airing.channel});
    }
  }

  /** The airing of highest priority is never dropped. */
  lemma HighestPriorityKept(before: seq<Planned>, after: seq<Planned>, tunerCount: int, i: nat)
    requires Resolved(before, after, Tuners(tunerCount))
    requires i < |before| && !before[i].skipped
    requires forall j :: 0 <= j < |before| && j != i && !before[j].skipped ==> before[j].priority < before[i].priority
    ensures after[i] == before[i]
  {
    if after[i].skipped {
      DropsHaveReasons(before, after, tunerCount, i);
      var t, rivals :| NoRoomAt(before, tunerCount, i, t, rivals);
      NeverAlone(before, tunerCount, i, t, rivals);
    }
  }

  /** One tuner, two airings at once: the one of lower priority goes. */
  lemma LowerPriorityGoes(before: seq<Planned>, after: seq<Planned>, i: nat, k: nat, t: int)
    requires Resolved(before, after, 1)
    requires |before| == 2 && {i, k} == {0, 1} && !before[i].skipped && !before[k].skipped
    requires before[i].airing.channel != before[k].airing.channel && Taken(before[i], t) && Taken(before[k], t)
    requires before[i].priority < before[k].priority
    ensures after == before[i := before[i].(skipped := true, conflict := true)]
  {
    assert Tuners(1) == 1;
    HighestPriorityKept(before, after, 1, k);
    if !after[i].skipped {
      PlanFitsTuners(before, after, 1, t);
      assert {before[i].airing.channel, before[k].airing.channel} <= ChannelsTaken(after, t);
      SubsetSize({before[i].airing.channel, before[k].airing.channel}, ChannelsTaken(after, t));
    }
  }

  /** With distinct ids, which plan it is depends on the airings alone. */
  lemma OnePlan(before: seq<Planned>, one: seq<Planned>, other: seq<Planned>, n: nat)
    requires DistinctIds(before) && |one| == |before| == |other|
    requires Resolved(before, one, n) && FollowsPlan(before, one, n)
    requires Resolved(before, other, n) && FollowsPlan(before, other, n)
    ensures one == other
  {
    forall i | 0 <= i < |before| ensures one[i] == other[i] {
      assert NewlySkipped(before, one, i) <==> NewlySkipped(before, other, i);
    }
  }

  // ----- a later showing -----

  /** Listed under one positive id, or on one channel from one start that is known. */
  predicate OneShowing(a: Airing, b: Airing) {
    || (a.id == b.id && b.id > 0)
    || (a.channel == b.channel && a.start == b.start && b.start != 0)
  }

  /** The candidate as it would be recorded. */
  function Added(skipped: Planned, air: Airing): Planned {
    skipped.(airing := air, priority := 0, runsUntil := 0, skipped := false, conflict := false)
  }

  /**
    A later showing of a skipped airing may be offered exactly when it is in the
    window, later, another showing of the title that the rules want, is not
    skipped as one the library has, and is kept already or, added to the plan,
    leaves no instant with more channels in use than tuners.
  */
  lemma OfferableExactlyWhen(plan: seq<Planned>, skipped: Planned, air: Airing, tunerCount: int, from: int, to: int,
                             sameTitle: Airing -> bool, rulesMatch: Airing -> bool)
    ensures Offerable(plan, skipped, air, Tuners(tunerCount), from, to, sameTitle, rulesMatch) <==>
      && from < air.end && air.start < to && skipped.airing.start < air.start && !OneShowing(air, skipped.airing)
      && sameTitle(air) && rulesMatch(air)
      && (forall i :: 0 <= i < |plan| && OneShowing(plan[i].airing, air) && plan[i].skipped ==> plan[i].conflict)
      && ((exists i :: 0 <= i < |plan| && OneShowing(plan[i].airing, air) && !plan[i].skipped)
          || forall t :: |ChannelsTaken(plan + [Added(skipped, air)], t)| <= if tunerCount > 1 then tunerCount else 1)
  {
    var more := plan + [Added(skipped, air)];
    assert Candidate(skipped, air) == Added(skipped, air);
    forall t ensures ChannelsTaken(more, t) == OnAir(Spans(more), Kept(more), t) {
      OnAirIsTaken(more, t);
    }
    hide ChannelsTaken, OnAir;
    assert Safe(more, Tuners(tunerCount)) <==> forall t :: |ChannelsTaken(more, t)| <= Tuners(tunerCount);
    assert forall a: Airing, b: Airing :: OneShowing(a, b) <==> SameShowing(a, b);
    hide SameShowing, OneShowing;
  }

  lemma OnAirIsTaken(plan: seq<Planned>, t: int)
    ensures ChannelsTaken(plan, t) == OnAir(Spans(plan), Kept(plan), t)
  {
    assert forall i :: i in Kept(plan) ==> (Taken(plan[i], t) <==> Spans(plan)[i].Covers(t));
  }
}
