/** How many pairing attempts and wrong codes the server takes in any ten minutes. Times are nanoseconds. */
module CodeTries {
  import opened Windows

  const WINDOW := 600_000_000_000
  const IP_LIMIT := 10
  const FAIL_CAP := 30

  /** One list of hits each: attempts and failures of an address, and failures of everyone at home or outside. */
  datatype Key = Attempts(ip: string) | Failures(ip: string) | AllFailures(remote: bool)

  function Limit(key: Key): nat { if key.AllFailures? then FAIL_CAP else IP_LIMIT }

  type Lists = map<Key, seq<Hit>>

  function Of(hits: Lists, key: Key): seq<Hit> { if key in hits then hits[key] else [] }

  /** A try counts as one. */
  function Try(at: int): Hit { Hit(at, 1) }

  predicate Full(hits: seq<Hit>, now: int, limit: nat) { |Since(hits, now - WINDOW)| >= limit }

  /** The list without the last hit of that time. */
  function WithoutLast(hits: seq<Hit>, at: int): (r: seq<Hit>)
    ensures |r| <= |hits|
  {
    if hits == [] then []
    else if hits[|hits| - 1].at == at then hits[..|hits| - 1]
    else WithoutLast(hits[..|hits| - 1], at) + [hits[|hits| - 1]]
  }

  class Pairing {
    var hits: Lists

    constructor ()
      ensures hits == map[]
    {
      hits := map[];
    }

    method CountRecent(at: seq<Hit>, now: int) returns (n: nat)
      ensures n == |Since(at, now - WINDOW)|
    {
      var cut := now - WINDOW;
      n := 0;
      for i := 0 to |at|
        invariant n + |Since(at[i..], cut)| == |Since(at, cut)|
      {
        assert at[i..][1..] == at[i + 1..];
        if at[i].at > cut {
          n := n + 1;
        }
      }
    }

    /** Prunes the list, and adds a hit when there is room for one. */
    method HitAllowed(key: Key, now: int, limit: nat) returns (ok: bool)
      modifies this
      ensures ok == !Full(Of(old(hits), key), now, limit)
      ensures hits == if ok then With(old(hits), key, now) else Pruned(old(hits), key, now)
    {
      var cut := now - WINDOW;
      var kept := [];
      var all := Of(hits, key);
      for i := 0 to |all|
        invariant hits == old(hits) && kept + Since(all[i..], cut) == Since(all, cut)
      {
        assert all[i..][1..] == all[i + 1..];
        if all[i].at > cut {
          kept := kept + [all[i]];
        }
      }
      assert kept == Since(all, cut) by { assert all[|all|..] == []; }
      if |kept| >= limit {
        hits := hits[key := kept];
        return false;
      }
      hits := hits[key := kept + [Try(now)]];
      return true;
    }

    method PairAllowed(ip: string, remote: bool, now: int) returns (ok: bool)
      modifies this
      ensures hits == Step(old(hits), Pair(ip, remote, now))
      ensures ok == Allows(old(hits), Pair(ip, remote, now))
    {
      var failed := CountRecent(Of(hits, Failures(ip)), now);
      if failed >= IP_LIMIT {
        return false;
      }
      var all := CountRecent(Of(hits, AllFailures(remote)), now);
      if all >= FAIL_CAP {
        return false;
      }
      ok := HitAllowed(Attempts(ip), now, IP_LIMIT);
    }

    /** The two hits are always allowed, so that their answers can be left unread. */
    method TakeCodeTry(ip: string, remote: bool, now: int) returns (ok: bool)
      modifies this
      ensures hits == Step(old(hits), Take(ip, remote, now))
      ensures ok == Allows(old(hits), Take(ip, remote, now))
    {
      var failed := CountRecent(Of(hits, Failures(ip)), now);
      var all := CountRecent(Of(hits, AllFailures(remote)), now);
      if failed >= IP_LIMIT || all >= FAIL_CAP {
        return false;
      }
      var first := HitAllowed(Failures(ip), now, IP_LIMIT);
      var second := HitAllowed(AllFailures(remote), now, FAIL_CAP);
      assert first && second;
      return true;
    }

    method GiveBackCodeTry(ip: string, remote: bool, at: int)
      modifies this
      ensures hits == Step(old(hits), GiveBack(ip, remote, at))
    {
      RemoveLast(Failures(ip), at);
      RemoveLast(AllFailures(remote), at);
    }

    method RemoveLast(key: Key, at: int)
      modifies this
      ensures hits == Without(old(hits), key, at)
    {
      var list := Of(hits, key);
      var i := |list| - 1;
      assert list[..|list|] == list;
      while i >= 0
        invariant -1 <= i < |list| && hits == old(hits)
        invariant WithoutLast(list, at) == WithoutLast(list[..i + 1], at) + list[i + 1..]
        invariant forall j :: i < j < |list| ==> list[j].at != at
      {
        assert list[..i + 1][..i] == list[..i];
        if list[i].at == at {
          hits := hits[key := list[..i] + list[i + 1..]];
          return;
        }
        assert [list[i]] + list[i + 1..] == list[i..];
        i := i - 1;
      }
      NotListed(list, at);
    }
  }

  lemma {:induction false} NotListed(hits: seq<Hit>, at: int)
    requires forall j :: 0 <= j < |hits| ==> hits[j].at != at
    ensures WithoutLast(hits, at) == hits
  {
    if hits != [] {
      NotListed(hits[..|hits| - 1], at);
      assert hits[..|hits| - 1] + [hits[|hits| - 1]] == hits;
    }
  }

  // ----- runs -----

  datatype Call =
    | Pair(ip: string, remote: bool, now: int)
    | Take(ip: string, remote: bool, now: int)
    | GiveBack(ip: string, remote: bool, now: int)

  /** An address, and everyone like it, has failures left in the window. */
  predicate Allows(hits: Lists, c: Call) {
    && !Full(Of(hits, Failures(c.ip)), c.now, IP_LIMIT)
    && !Full(Of(hits, AllFailures(c.remote)), c.now, FAIL_CAP)
    && (c.Pair? ==> !Full(Of(hits, Attempts(c.ip)), c.now, IP_LIMIT))
  }

  function Pruned(hits: Lists, key: Key, now: int): Lists {
    hits[key := Since(Of(hits, key), now - WINDOW)]
  }

  function With(hits: Lists, key: Key, now: int): Lists {
    hits[key := Since(Of(hits, key), now - WINDOW) + [Try(now)]]
  }

  /** A key that is not listed stays so; a list is changed only when it has the time. */
  function Without(hits: Lists, key: Key, at: int): Lists {
    if exists j :: 0 <= j < |Of(hits, key)| && Of(hits, key)[j].at == at
    then hits[key := WithoutLast(Of(hits, key), at)] else hits
  }

  function Step(hits: Lists, c: Call): Lists {
    match c
    case Pair(ip, remote, now) =>
      if Full(Of(hits, Failures(ip)), now, IP_LIMIT) || Full(Of(hits, AllFailures(remote)), now, FAIL_CAP) then hits
      else if Full(Of(hits, Attempts(ip)), now, IP_LIMIT) then Pruned(hits, Attempts(ip), now)
      else With(hits, Attempts(ip), now)
    case Take(ip, remote, now) =>
      if Allows(hits, c) then With(With(hits, Failures(ip), now), AllFailures(remote), now) else hits
    case GiveBack(ip, remote, at) => Without(Without(hits, Failures(ip), at), AllFailures(remote), at)
  }

  /** What the lists would hold were nothing ever pruned: every try that was not given back. */
  function Record(all: Lists, c: Call): Lists {
    match c
    case Pair(ip, remote, now) => if Allows(all, c) then Added(all, Attempts(ip), now) else all
    case Take(ip, remote, now) =>
      if Allows(all, c) then Added(Added(all, Failures(ip), now), AllFailures(remote), now) else all
    case GiveBack(ip, remote, at) => Without(Without(all, Failures(ip), at), AllFailures(remote), at)
  }

  function Added(all: Lists, key: Key, now: int): Lists {
    all[key := Of(all, key) + [Try(now)]]
  }

  ghost predicate SameRecent(hits: Lists, all: Lists, clock: int) {
    forall key, cut :: cut >= clock - WINDOW ==> Since(Of(hits, key), cut) == Since(Of(all, key), cut)
  }

  ghost predicate WithinCaps(all: Lists) {
    forall key, t :: |Window(Of(all, key), WINDOW, t)| <= Limit(key)
  }

  ghost predicate NoneLater(all: Lists, clock: int) {
    forall key :: NoneAfter(Of(all, key), clock)
  }

  lemma LaterSame(hits: Lists, all: Lists, clock: int, now: int)
    requires SameRecent(hits, all, clock) && clock <= now
    ensures SameRecent(hits, all, now)
    ensures forall key, limit :: Full(Of(hits, key), now, limit) == Full(Of(all, key), now, limit)
  {
  }

  lemma PrunedSame(hits: Lists, all: Lists, key: Key, now: int)
    requires SameRecent(hits, all, now)
    ensures SameRecent(Pruned(hits, key, now), all, now)
  {
    forall k, cut | cut >= now - WINDOW
      ensures Since(Of(Pruned(hits, key, now), k), cut) == Since(Of(all, k), cut)
    {
      SinceSince(Of(hits, key), now - WINDOW, cut);
      assert Of(Pruned(hits, key, now), k) == if k == key then Since(Of(hits, key), now - WINDOW) else Of(hits, k);
      assert Since(Of(hits, k), cut) == Since(Of(all, k), cut);
      hide Since, Pruned, Of;
    }
  }

  lemma AddedSame(hits: Lists, all: Lists, key: Key, now: int)
    requires SameRecent(hits, all, now)
    ensures SameRecent(With(hits, key, now), Added(all, key, now), now)
  {
    forall k, cut | cut >= now - WINDOW
      ensures Since(Of(With(hits, key, now), k), cut) == Since(Of(Added(all, key, now), k), cut)
    {
      if k == key {
        SinceSince(Of(hits, key), now - WINDOW, cut);
        SinceConcat(Since(Of(hits, key), now - WINDOW), [Try(now)], cut);
        SinceConcat(Of(all, key), [Try(now)], cut);
        assert Since(Of(hits, key), cut) == Since(Of(all, key), cut);
      } else {
        assert Of(With(hits, key, now), k) == Of(hits, k) && Of(Added(all, key, now), k) == Of(all, k);
      }
    }
  }

  lemma WithoutLastSnoc(init: seq<Hit>, last: Hit, at: int)
    ensures WithoutLast(init + [last], at) == if last.at == at then init else WithoutLast(init, at) + [last]
  {
    assert (init + [last])[..|init|] == init;
  }

  /** Giving a try back and looking at a window may come in either order. */
  lemma {:induction false} SinceWithoutLast(hits: seq<Hit>, at: int, cut: int)
    ensures Since(WithoutLast(hits, at), cut) ==
      if at > cut then WithoutLast(Since(hits, cut), at) else Since(hits, cut)
  {
    if hits != [] {
      var init, last := hits[..|hits| - 1], hits[|hits| - 1];
      assert hits == init + [last];
      SinceWithoutLast(init, at, cut);
      WithoutLastSnoc(init, last, at);
      hide WithoutLast, Since;
      SinceConcat(init, [last], cut);
      SinceOne(last, cut);
      SinceConcat(WithoutLast(init, at), [last], cut);
      var kept, less := Since(init, cut), Since(WithoutLast(init, at), cut);
      if last.at > cut {
        WithoutLastSnoc(kept, last, at);
      } else {
        assert kept + [] == kept && less + [] == less;
      }
    }
  }

  lemma OfWithout(hits: Lists, key: Key, at: int, k: Key)
    ensures Of(Without(hits, key, at), k) == if k == key then WithoutLast(Of(hits, k), at) else Of(hits, k)
  {
    hide WithoutLast;
    if !exists j :: 0 <= j < |Of(hits, key)| && Of(hits, key)[j].at == at {
      NotListed(Of(hits, key), at);
    }
  }

  lemma WithoutSame(hits: Lists, all: Lists, key: Key, at: int, clock: int)
    requires SameRecent(hits, all, clock)
    ensures SameRecent(Without(hits, key, at), Without(all, key, at), clock)
  {
    hide Without, WithoutLast, Since;
    forall k, cut | cut >= clock - WINDOW
      ensures Since(Of(Without(hits, key, at), k), cut) == Since(Of(Without(all, key, at), k), cut)
    {
      OfWithout(hits, key, at, k);
      OfWithout(all, key, at, k);
      SinceWithoutLast(Of(hits, k), at, cut);
      SinceWithoutLast(Of(all, k), at, cut);
    }
  }

  /** The pruned lists decide as the whole history would, and go on looking like it. */
  lemma SameVerdict(hits: Lists, all: Lists, clock: int, c: Call)
    requires SameRecent(hits, all, clock) && (c.GiveBack? || clock <= c.now)
    ensures !c.GiveBack? ==> Allows(hits, c) == Allows(all, c)
    ensures SameRecent(Step(hits, c), Record(all, c), Clock(clock, c))
  {
    hide SameRecent, Full, Without, With, Added, Pruned;
    if !c.GiveBack? {
      LaterSame(hits, all, clock, c.now);
    }
    match c
    case Pair(ip, remote, now) =>
      PrunedSame(hits, all, Attempts(ip), now);
      AddedSame(hits, all, Attempts(ip), now);
    case Take(ip, remote, now) =>
      AddedSame(hits, all, Failures(ip), now);
      AddedSame(With(hits, Failures(ip), now), Added(all, Failures(ip), now), AllFailures(remote), now);
    case GiveBack(ip, remote, at) =>
      WithoutSame(hits, all, Failures(ip), at, clock);
      WithoutSame(Without(hits, Failures(ip), at), Without(all, Failures(ip), at), AllFailures(remote), at, clock);
  }

  function Clock(clock: int, c: Call): int { if c.GiveBack? then clock else c.now }

  // ----- no window goes over its cap -----

  lemma AddedWithinCaps(all: Lists, key: Key, now: int)
    requires WithinCaps(all) && NoneLater(all, now) && !Full(Of(all, key), now, Limit(key))
    ensures WithinCaps(Added(all, key, now)) && NoneLater(Added(all, key, now), now)
  {
    forall k ensures NoneAfter(Of(Added(all, key, now), k), now) {
      assert NoneAfter(Of(all, k), now);
    }
    hide Window, Since, NoneAfter;
    forall k, t ensures |Window(Of(Added(all, key, now), k), WINDOW, t)| <= Limit(k) {
      var list := Of(all, key);
      assert |Window(Of(all, k), WINDOW, t)| <= Limit(k);
      if k == key {
        WindowWithHit(list, Try(now), WINDOW, t);
        if now <= t {
          LaterWindow(list, WINDOW, now, t);
          SinceOne(Try(now), t - WINDOW);
        }
      }
    }
  }

  lemma {:induction false} WindowWithoutLast(hits: seq<Hit>, at: int, t: int)
    ensures |Window(WithoutLast(hits, at), WINDOW, t)| <= |Window(hits, WINDOW, t)|
  {
    if hits != [] {
      var n := |hits| - 1;
      var last, cut := hits[n], t - WINDOW;
      assert hits == hits[..n] + [last];
      WindowWithoutLast(hits[..n], at, t);
      WindowOfConcat(hits[..n], [last], t);
      WindowOfConcat(WithoutLast(hits[..n], at), [last], t);
    }
  }

  lemma WindowOfConcat(a: seq<Hit>, b: seq<Hit>, t: int)
    ensures Window(a + b, WINDOW, t) == Window(a, WINDOW, t) + Window(b, WINDOW, t)
  {
    SinceConcat(a, b, t - WINDOW);
    UntilConcat(Since(a, t - WINDOW), Since(b, t - WINDOW), t);
  }

  lemma {:induction false} WithoutLastNoneAfter(hits: seq<Hit>, at: int, clock: int)
    requires NoneAfter(hits, clock)
    ensures NoneAfter(WithoutLast(hits, at), clock)
  {
    if hits != [] {
      WithoutLastNoneAfter(hits[..|hits| - 1], at, clock);
    }
  }

  lemma WithoutWithinCaps(all: Lists, key: Key, at: int, clock: int)
    requires WithinCaps(all) && NoneLater(all, clock)
    ensures WithinCaps(Without(all, key, at)) && NoneLater(Without(all, key, at), clock)
  {
    hide Window, Without, WithoutLast, NoneAfter;
    forall k ensures NoneAfter(Of(Without(all, key, at), k), clock) {
      OfWithout(all, key, at, k);
      WithoutLastNoneAfter(Of(all, k), at, clock);
    }
    forall k, t ensures |Window(Of(Without(all, key, at), k), WINDOW, t)| <= Limit(k) {
      OfWithout(all, key, at, k);
      WindowWithoutLast(Of(all, k), at, t);
      assert |Window(Of(all, k), WINDOW, t)| <= Limit(k);
    }
  }

  lemma RecordWithinCaps(all: Lists, clock: int, c: Call)
    requires WithinCaps(all) && NoneLater(all, clock) && (c.GiveBack? || clock <= c.now)
    ensures WithinCaps(Record(all, c)) && NoneLater(Record(all, c), Clock(clock, c))
  {
    hide WithinCaps, Without, Full;
    assert NoneLater(all, Clock(clock, c));
    hide NoneLater;
    match c
    case Pair(ip, remote, now) =>
      if Allows(all, c) {
        AddedWithinCaps(all, Attempts(ip), now);
      }
    case Take(ip, remote, now) =>
      if Allows(all, c) {
        AddedWithinCaps(all, Failures(ip), now);
        AddedWithinCaps(Added(all, Failures(ip), now), AllFailures(remote), now);
      }
    case GiveBack(ip, remote, at) =>
      WithoutWithinCaps(all, Failures(ip), at, clock);
      WithoutWithinCaps(Without(all, Failures(ip), at), AllFailures(remote), at, clock);
  }

  function Run(hits: Lists, calls: seq<Call>): Lists
    decreases calls
  {
    if calls == [] then hits else Run(Step(hits, calls[0]), calls[1..])
  }

  function RecordAll(all: Lists, calls: seq<Call>): Lists
    decreases calls
  {
    if calls == [] then all else RecordAll(Record(all, calls[0]), calls[1..])
  }

  predicate Rising(clock: int, calls: seq<Call>)
    decreases calls
  {
    calls == [] || ((calls[0].GiveBack? || clock <= calls[0].now) && Rising(Clock(clock, calls[0]), calls[1..]))
  }

  /**
   * Over any run of calls with a clock that does not go back, no ten minutes hold more tries that were not given back
   * than their cap, and every call is decided as the whole history would decide it.
   */
  lemma {:induction false} TriesStayWithinCaps(hits: Lists, all: Lists, clock: int, calls: seq<Call>)
    requires SameRecent(hits, all, clock) && WithinCaps(all) && NoneLater(all, clock) && Rising(clock, calls)
    ensures WithinCaps(RecordAll(all, calls))
    ensures forall k :: 0 <= k < |calls| && !calls[k].GiveBack? ==>
      Allows(Run(hits, calls[..k]), calls[k]) == Allows(RecordAll(all, calls[..k]), calls[k])
    decreases calls
  {
    hide SameRecent, WithinCaps, NoneLater, Step, Record, Allows;
    if calls != [] {
      var c, rest := calls[0], calls[1..];
      SameVerdict(hits, all, clock, c);
      RecordWithinCaps(all, clock, c);
      TriesStayWithinCaps(Step(hits, c), Record(all, c), Clock(clock, c), rest);
      forall k | 0 <= k < |calls| && !calls[k].GiveBack?
        ensures Allows(Run(hits, calls[..k]), calls[k]) == Allows(RecordAll(all, calls[..k]), calls[k])
      {
        if k > 0 {
          assert calls[..k][1..] == rest[..k - 1] && calls[..k][0] == c && calls[k] == rest[k - 1];
        }
      }
    }
  }

  lemma StartsWithinCaps(clock: int)
    ensures SameRecent(map[], map[], clock) && WithinCaps(map[]) && NoneLater(map[], clock)
  {
  }

  // ----- the caps on the history itself -----

  /** The tries of a list in the ten minutes that end at now. */
  ghost function Recent(all: Lists, key: Key, now: int): nat {
    |Places(Of(all, key), now - 600_000_000_000, now)|
  }

  /** Fewer than ten failures of the address and thirty of its side; a pairing also fewer than ten attempts of the address. */
  ghost predicate HasTries(all: Lists, c: Call) {
    && Recent(all, Failures(c.ip), c.now) < 10 && Recent(all, AllFailures(c.remote), c.now) < 30
    && (c.Pair? ==> Recent(all, Attempts(c.ip), c.now) < 10)
  }

  lemma FullExactlyWhen(hits: seq<Hit>, now: int, limit: nat)
    requires NoneAfter(hits, now)
    ensures Full(hits, now, limit) <==> |Places(hits, now - 600_000_000_000, now)| >= limit
  {
    SinceIsWindow(hits, WINDOW, now);
    WindowPlaces(hits, WINDOW, now);
  }

  lemma {:induction false} RunNoneLater(all: Lists, clock: int, calls: seq<Call>, k: nat)
    requires WithinCaps(all) && NoneLater(all, clock) && Rising(clock, calls) && k < |calls| && !calls[k].GiveBack?
    ensures NoneLater(RecordAll(all, calls[..k]), calls[k].now)
    decreases k
  {
    hide WithinCaps, Record;
    if k > 0 {
      hide NoneLater;
      RecordWithinCaps(all, clock, calls[0]);
      RunNoneLater(Record(all, calls[0]), Clock(clock, calls[0]), calls[1..], k - 1);
      assert calls[..k][0] == calls[0] && calls[..k][1..] == calls[1..][..k - 1];
    }
  }

  /** In any run an attempt or a code is let through exactly when the last ten minutes of all that counts leave it a try. */
  lemma AllowedExactlyWhenLeft(hits: Lists, all: Lists, clock: int, calls: seq<Call>, k: nat)
    requires SameRecent(hits, all, clock) && WithinCaps(all) && NoneLater(all, clock) && Rising(clock, calls)
    requires k < |calls| && !calls[k].GiveBack?
    ensures Allows(Run(hits, calls[..k]), calls[k]) <==> HasTries(RecordAll(all, calls[..k]), calls[k])
  {
    var c, now := calls[k], calls[k].now;
    var seen := RecordAll(all, calls[..k]);
    TriesStayWithinCaps(hits, all, clock, calls);
    RunNoneLater(all, clock, calls, k);
    assert NoneAfter(Of(seen, Failures(c.ip)), now) && NoneAfter(Of(seen, AllFailures(c.remote)), now)
      && NoneAfter(Of(seen, Attempts(c.ip)), now);
    hide NoneAfter, Full, Places, SameRecent, WithinCaps, NoneLater, RecordAll, Run;
    FullExactlyWhen(Of(seen, Failures(c.ip)), now, IP_LIMIT);
    FullExactlyWhen(Of(seen, AllFailures(c.remote)), now, FAIL_CAP);
    FullExactlyWhen(Of(seen, Attempts(c.ip)), now, IP_LIMIT);
  }

  /** No ten minutes of a run from empty lists hold more than ten tries of an address or thirty of a side. */
  lemma NoWindowOverCap(clock: int, calls: seq<Call>, key: Key, t: int)
    requires Rising(clock, calls)
    ensures Recent(RecordAll(map[], calls), key, t) <= if key.AllFailures? then 30 else 10
  {
    StartsWithinCaps(clock);
    TriesStayWithinCaps(map[], map[], clock, calls);
    var all := RecordAll(map[], calls);
    WindowPlaces(Of(all, key), WINDOW, t);
    assert |Window(Of(all, key), WINDOW, t)| <= Limit(key);
    hide Window, Places;
  }

  /** A code that was not wrong leaves the windows as they were before it was taken. */
  lemma GivenBackIsUntaken(all: Lists, ip: string, remote: bool, now: int)
    requires Allows(all, Take(ip, remote, now))
    ensures var after := Record(Record(all, Take(ip, remote, now)), GiveBack(ip, remote, now));
            forall key :: Of(after, key) == Of(all, key)
  {
    var one := Added(all, Failures(ip), now);
    var taken := Added(one, AllFailures(remote), now);
    var given := Without(taken, Failures(ip), now);
    forall key ensures Of(Without(given, AllFailures(remote), now), key) == Of(all, key) {
      OfWithout(given, AllFailures(remote), now, key);
      OfWithout(taken, Failures(ip), now, key);
      WithoutLastSnoc(Of(all, key), Try(now), now);
    }
  }
}
