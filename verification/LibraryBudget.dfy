/** How much of a library the break queue reads in any hour, and the queue it reads from. Times are nanoseconds. */
module LibraryBudget {
  import opened Windows

  const PER_HOUR := 6
  const HOUR := 3_600_000_000_000

  /** Room for one more read of n bytes after these in the window; the first always fits. */
  predicate Fits(recent: seq<Hit>, n: nat, budget: nat) {
    recent == [] || Sum(recent) + n <= budget
  }

  /** What an hour may hold: six reads within the byte budget, or one read of any size. */
  predicate HourOk(hour: seq<Hit>, budget: nat) {
    |hour| <= PER_HOUR && (|hour| <= 1 || Sum(hour) <= budget)
  }

  class Spending {
    var spend: seq<Hit>

    constructor ()
      ensures spend == []
    {
      spend := [];
    }

    method Prune(now: int)
      modifies this
      ensures spend == Since(old(spend), now - HOUR)
    {
      var kept := [];
      ghost var was := spend;
      for i := 0 to |spend|
        invariant spend == was && kept + Since(spend[i..], now - HOUR) == Since(was, now - HOUR)
      {
        assert spend[i..][1..] == spend[i + 1..];
        if now - spend[i].at < HOUR {
          kept := kept + [spend[i]];
        }
      }
      spend := kept;
    }

    method Room(now: int) returns (room: bool)
      modifies this
      ensures spend == Since(old(spend), now - HOUR) && room == (|spend| < PER_HOUR)
    {
      Prune(now);
      room := |spend| < PER_HOUR;
    }

    method BytesFit(now: int, next: nat, budget: nat) returns (fits: bool)
      modifies this
      ensures spend == Since(old(spend), now - HOUR) && fits == Fits(spend, next, budget)
    {
      Prune(now);
      if |spend| == 0 {
        return true;
      }
      var sum := 0;
      for i := 0 to |spend|
        invariant spend == Since(old(spend), now - HOUR) && sum + Sum(spend[i..]) == Sum(spend)
      {
        assert spend[i..][1..] == spend[i + 1..];
        sum := sum + spend[i].n;
      }
      fits := sum + next <= budget;
    }

    method Note(now: int, n: nat)
      modifies this
      ensures spend == Since(old(spend), now - HOUR) + [Hit(now, n)]
    {
      Prune(now);
      spend := spend + [Hit(now, n)];
    }

    /** One library file at the head of the queue: read at `noted` unless the hour is full or it does not fit. */
    method TryRead(e: Event, budget: nat) returns (taken: bool)
      requires e.Read?
      modifies this
      ensures spend == Kept(old(spend), e, budget) && taken == Reads(old(spend), e, budget)
    {
      taken := Room(e.room);
      if !taken {
        return;
      }
      taken := BytesFit(e.fits, e.n, budget);
      if !taken {
        return;
      }
      Note(e.noted, e.n);
    }
  }

  /** The clock is read again for each question, and only questions prune: Ask is any other look at the budget. */
  datatype Event = Ask(at: int) | Read(room: int, fits: int, noted: int, n: nat) {
    function First(): int { if Ask? then at else room }
    function Last(): int { if Ask? then at else noted }
    predicate Ok() { Ask? || room <= fits <= noted }
  }

  predicate Reads(spend: seq<Hit>, e: Event, budget: nat) {
    e.Read? && |Since(spend, e.room - HOUR)| < PER_HOUR
    && Fits(Since(Since(spend, e.room - HOUR), e.fits - HOUR), e.n, budget)
  }

  /** The history the queue keeps, pruned at every question. */
  function Kept(spend: seq<Hit>, e: Event, budget: nat): seq<Hit> {
    if e.Ask? then Since(spend, e.at - HOUR)
    else
      var a := Since(spend, e.room - HOUR);
      if |a| >= PER_HOUR then a
      else
        var b := Since(a, e.fits - HOUR);
        if !Fits(b, e.n, budget) then b else Since(b, e.noted - HOUR) + [Hit(e.noted, e.n)]
  }

  /** The history nobody prunes. */
  function Full(all: seq<Hit>, e: Event, budget: nat): seq<Hit> {
    if Reads(all, e, budget) then all + [Hit(e.noted, e.n)] else all
  }

  predicate Rising(clock: int, events: seq<Event>)
    decreases events
  {
    events == [] || (clock <= events[0].First() && events[0].Ok() && Rising(events[0].Last(), events[1..]))
  }

  /** The two histories look the same from the clock on. */
  ghost predicate SameRecent(spend: seq<Hit>, all: seq<Hit>, clock: int) {
    forall cut :: cut >= clock - HOUR ==> Since(spend, cut) == Since(all, cut)
  }

  ghost predicate HoursOk(all: seq<Hit>, budget: nat) {
    forall t :: HourOk(Window(all, HOUR, t), budget)
  }

  ghost predicate Inv(spend: seq<Hit>, all: seq<Hit>, clock: int, budget: nat) {
    NoneAfter(all, clock) && SameRecent(spend, all, clock) && HoursOk(all, budget)
  }

  lemma PruneKeepsSame(spend: seq<Hit>, all: seq<Hit>, clock: int, now: int)
    requires SameRecent(spend, all, clock) && clock <= now
    ensures SameRecent(Since(spend, now - HOUR), all, now)
  {
    forall cut | cut >= now - HOUR
      ensures Since(Since(spend, now - HOUR), cut) == Since(all, cut)
    {
      SinceSince(spend, now - HOUR, cut);
    }
  }

  /** Pruning in place decides as the full history would. */
  lemma SameVerdict(spend: seq<Hit>, all: seq<Hit>, clock: int, e: Event, budget: nat)
    requires SameRecent(spend, all, clock) && clock <= e.First() && e.Ok()
    ensures Reads(spend, e, budget) == Reads(all, e, budget)
    ensures SameRecent(Kept(spend, e, budget), Full(all, e, budget), e.Last())
  {
    hide Since;
    match e
    case Ask(at) => PruneKeepsSame(spend, all, clock, at);
    case Read(room, fits, noted, n) =>
      var a, b := Since(spend, room - HOUR), Since(Since(spend, room - HOUR), fits - HOUR);
      PruneKeepsSame(spend, all, clock, room);
      PruneKeepsSame(a, all, room, fits);
      PruneKeepsSame(a, all, room, noted);
      PruneKeepsSame(b, all, fits, noted);
      SinceSince(all, room - HOUR, fits - HOUR);
      assert a == Since(all, room - HOUR) && b == Since(all, fits - HOUR);
      if Reads(spend, e, budget) {
        SameWithHit(Since(b, noted - HOUR), all, noted, Hit(noted, n));
      }
  }

  lemma SameWithHit(spend: seq<Hit>, all: seq<Hit>, clock: int, h: Hit)
    requires SameRecent(spend, all, clock)
    ensures SameRecent(spend + [h], all + [h], clock)
  {
    forall cut | cut >= clock - HOUR ensures Since(spend + [h], cut) == Since(all + [h], cut) {
      SinceConcat(spend, [h], cut);
      SinceConcat(all, [h], cut);
    }
  }

  /** A window with one more hit is within budget when the hit fitted what was in the window before. */
  lemma HourWithHit(all: seq<Hit>, h: Hit, fits: int, t: int, budget: nat)
    requires NoneAfter(all, fits) && fits <= h.at && HourOk(Window(all, HOUR, t), budget)
    requires |Since(all, fits - HOUR)| < PER_HOUR && Fits(Since(all, fits - HOUR), h.n, budget)
    ensures HourOk(Window(all + [h], HOUR, t), budget)
  {
    hide Window, Since;
    WindowWithHit(all, h, HOUR, t);
    if h.at <= t {
      LaterWindow(all, HOUR, fits, t);
      SinceOne(h, t - HOUR);
      SumConcat(Window(all, HOUR, t), Since([h], t - HOUR));
      assert Sum([h]) == h.n + Sum([]);
    }
  }

  lemma ReadKeepsHours(all: seq<Hit>, e: Event, clock: int, budget: nat)
    requires NoneAfter(all, clock) && HoursOk(all, budget) && clock <= e.First() && e.Ok() && Reads(all, e, budget)
    ensures HoursOk(all + [Hit(e.noted, e.n)], budget)
  {
    hide HourOk, Since;
    SinceSince(all, e.room - HOUR, e.fits - HOUR);
    forall t ensures HourOk(Window(all + [Hit(e.noted, e.n)], HOUR, t), budget) {
      HourWithHit(all, Hit(e.noted, e.n), e.fits, t, budget);
    }
  }

  function RunKept(spend: seq<Hit>, events: seq<Event>, budget: nat): seq<Hit>
    decreases events
  {
    if events == [] then spend else RunKept(Kept(spend, events[0], budget), events[1..], budget)
  }

  function RunFull(all: seq<Hit>, events: seq<Event>, budget: nat): seq<Hit>
    decreases events
  {
    if events == [] then all else RunFull(Full(all, events[0], budget), events[1..], budget)
  }

  /**
   * Over any run with a clock that does not go back, the queue's pruned history decides every read as the whole
   * history would, and no hour holds more than six reads, or more bytes than the budget unless it is one read.
   */
  lemma {:induction false} HoursStayWithinBudget(
      spend: seq<Hit>, all: seq<Hit>, clock: int, events: seq<Event>, budget: nat)
    requires Inv(spend, all, clock, budget) && Rising(clock, events)
    ensures HoursOk(RunFull(all, events, budget), budget)
    ensures forall k :: 0 <= k < |events| ==>
      Reads(RunKept(spend, events[..k], budget), events[k], budget)
        == Reads(RunFull(all, events[..k], budget), events[k], budget)
    decreases events
  {
    hide Kept, Full, Reads, SameRecent, HoursOk;
    if events != [] {
      var e, rest := events[0], events[1..];
      var spend', all' := Kept(spend, e, budget), Full(all, e, budget);
      EventKeepsInv(spend, all, clock, e, budget);
      SameVerdict(spend, all, clock, e, budget);
      HoursStayWithinBudget(spend', all', e.Last(), rest, budget);
      forall k | 0 <= k < |events|
        ensures Reads(RunKept(spend, events[..k], budget), events[k], budget)
          == Reads(RunFull(all, events[..k], budget), events[k], budget)
      {
        if k > 0 {
          assert events[..k][1..] == rest[..k - 1] && events[..k][0] == e && events[k] == rest[k - 1];
        }
      }
    }
  }

  lemma EventKeepsInv(spend: seq<Hit>, all: seq<Hit>, clock: int, e: Event, budget: nat)
    requires Inv(spend, all, clock, budget) && clock <= e.First() && e.Ok()
    ensures Inv(Kept(spend, e, budget), Full(all, e, budget), e.Last(), budget)
  {
    hide Kept, Reads, SameRecent, HoursOk;
    SameVerdict(spend, all, clock, e, budget);
    if Reads(all, e, budget) {
      ReadKeepsHours(all, e, clock, budget);
      ReadsIsRead(all, e, budget);
    }
  }

  lemma ReadsIsRead(all: seq<Hit>, e: Event, budget: nat)
    requires Reads(all, e, budget)
    ensures e.Read?
  {
  }

  /** A queue that starts with an empty history is within budget. */
  lemma StartsWithinBudget(clock: int, budget: nat)
    ensures Inv([], [], clock, budget)
  {
  }

  // ----- the budget on the history itself -----

  /** Fewer than six reads in the hour, and none, or bytes to spare for n more. */
  ghost predicate HourHasRoom(all: seq<Hit>, room: int, fits: int, n: nat, budget: nat) {
    && |Places(all, room - 3_600_000_000_000, room)| < 6
    && (|| Places(all, fits - 3_600_000_000_000, fits) == {}
        || Amount(all, fits - 3_600_000_000_000, fits) + n <= budget)
  }

  lemma HourCounted(all: seq<Hit>, now: int)
    requires NoneAfter(all, now)
    ensures var hour, from := Since(all, now - HOUR), now - 3_600_000_000_000;
            |hour| == |Places(all, from, now)| && Sum(hour) == Amount(all, from, now)
            && (hour == [] <==> Places(all, from, now) == {})
  {
    SinceIsWindow(all, HOUR, now);
    WindowPlaces(all, HOUR, now);
    hide Window, Since, Places;
    assert Places(all, now - HOUR, now) == {} <==> |Places(all, now - HOUR, now)| == 0;
  }

  lemma ReadsExactlyWhen(all: seq<Hit>, e: Event, budget: nat)
    requires e.Read? && e.Ok() && NoneAfter(all, e.room)
    ensures Reads(all, e, budget) <==> HourHasRoom(all, e.room, e.fits, e.n, budget)
  {
    assert NoneAfter(all, e.fits);
    SinceSince(all, e.room - HOUR, e.fits - HOUR);
    HourCounted(all, e.room);
    HourCounted(all, e.fits);
    hide Since, Places, Sum, NoneAfter;
  }

  lemma {:induction false} RunNoneAfter(all: seq<Hit>, clock: int, events: seq<Event>, budget: nat, k: nat)
    requires NoneAfter(all, clock) && Rising(clock, events) && k < |events|
    ensures NoneAfter(RunFull(all, events[..k], budget), events[k].First()) && events[k].Ok()
    decreases k
  {
    if k > 0 {
      var e := events[0];
      assert NoneAfter(Full(all, e, budget), e.Last());
      RunNoneAfter(Full(all, e, budget), e.Last(), events[1..], budget, k - 1);
      assert events[..k][0] == e && events[..k][1..] == events[1..][..k - 1];
    }
  }

  /** In any run a file is read exactly when the last hour of all that was read has room for it. */
  lemma ReadExactlyWhenRoom(spend: seq<Hit>, all: seq<Hit>, clock: int, events: seq<Event>, budget: nat, k: nat)
    requires Inv(spend, all, clock, budget) && Rising(clock, events) && k < |events| && events[k].Read?
    ensures var e := events[k];
            Reads(RunKept(spend, events[..k], budget), e, budget) <==>
              HourHasRoom(RunFull(all, events[..k], budget), e.room, e.fits, e.n, budget)
  {
    hide HourHasRoom, Reads;
    HoursStayWithinBudget(spend, all, clock, events, budget);
    RunNoneAfter(all, clock, events, budget, k);
    ReadsExactlyWhen(RunFull(all, events[..k], budget), events[k], budget);
  }

  /** No hour of a run from an empty history holds more than six reads, or more bytes than the budget unless it is one read. */
  lemma NoHourOverBudget(clock: int, events: seq<Event>, budget: nat, t: int)
    requires Rising(clock, events)
    ensures var all := RunFull([], events, budget);
            var hour := Places(all, t - 3_600_000_000_000, t);
            |hour| <= 6 && (|hour| <= 1 || Amount(all, t - 3_600_000_000_000, t) <= budget)
  {
    StartsWithinBudget(clock, budget);
    HoursStayWithinBudget([], [], clock, events, budget);
    var all := RunFull([], events, budget);
    WindowPlaces(all, HOUR, t);
    assert HourOk(Window(all, HOUR, t), budget);
    hide Window, Places, RunFull;
  }
}
