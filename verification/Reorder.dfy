/** The caption reader's reorder buffer: pictures in decode order come out in display order. */
module Reorder {
  import opened Collections

  const CLOCK := 0x2_0000_0000
  const HALF := 0x1_0000_0000
  const REORDER_DEPTH := 8
  const BREAK_BACK := 90_000
  const BREAK_AHEAD := 10 * 90_000

  /** tag stands for the caption bytes. */
  datatype Picture = Picture(pts: int, tag: int)

  /** a - b on the 33-bit clock, across a wrap. */
  function PtsDelta(a: int, b: int): int {
    var d := (a - b) % CLOCK;
    if d >= HALF then d - CLOCK else d
  }

  /** The first of the earliest n held pictures that none of them shows before. */
  function FirstOf(held: seq<Picture>, n: nat): (i: nat)
    requires 1 <= n <= |held|
    ensures i < n
  {
    if n == 1 then 0
    else
      var i := FirstOf(held, n - 1);
      if PtsDelta(held[n - 1].pts, held[i].pts) < 0 then n - 1 else i
  }

  function Without<T>(s: seq<T>, i: nat): (r: seq<T>)
    requires i < |s|
    ensures |r| == |s| - 1
  {
    s[..i] + s[i + 1..]
  }

  datatype Buffer = Buffer(held: seq<Picture>, out: seq<Picture>) {
    function Emit(): Buffer
      requires held != []
    {
      var i := FirstOf(held, |held|);
      Buffer(Without(held, i), out + [held[i]])
    }

    function Flush(): Buffer
      decreases |held|
    {
      if held == [] then this else Emit().Flush()
    }

    /** The picture is on another timeline than the last one held. */
    predicate Breaks(pic: Picture) {
      held != [] &&
      var d := PtsDelta(pic.pts, held[|held| - 1].pts);
      d < -BREAK_BACK || d > BREAK_AHEAD
    }

    function Take(pic: Picture): Buffer {
      var b := if Breaks(pic) then Flush() else this;
      var n := Buffer(b.held + [pic], b.out);
      if |n.held| > REORDER_DEPTH then n.Emit() else n
    }
  }

  const EMPTY := Buffer([], [])

  function Run(b: Buffer, pics: seq<Picture>): Buffer
    decreases |pics|
  {
    if pics == [] then b else Run(b, pics[..|pics| - 1]).Take(pics[|pics| - 1])
  }

  /** Everything that comes out of a run once it is flushed. */
  function Shown(pics: seq<Picture>): seq<Picture> {
    Run(EMPTY, pics).Flush().out
  }

  class Reader {
    var held: seq<Picture>
    var out: seq<Picture>

    function View(): Buffer
      reads this
    {
      Buffer(held, out)
    }

    constructor ()
      ensures View() == EMPTY
    {
      held, out := [], [];
    }

    /** Hands over the held picture that shows first. */
    method Emit()
      requires held != []
      modifies this
      ensures View() == old(View()).Emit()
    {
      var first := 0;
      for i := 1 to |held|
        invariant View() == old(View()) && first < |held| && first == FirstOf(held, i)
      {
        if PtsDelta(held[i].pts, held[first].pts) < 0 {
          first := i;
        }
      }
      out := out + [held[first]];
      held := held[..first] + held[first + 1..];
    }

    method EmitAll()
      modifies this
      ensures View() == old(View()).Flush()
    {
      while |held| > 0
        invariant View().Flush() == old(View()).Flush()
        decreases |held|
      {
        Emit();
      }
    }

    /** One picture more, in decode order. */
    method TakeIn(pic: Picture)
      modifies this
      ensures View() == old(View()).Take(pic)
    {
      var n := |held|;
      if n > 0 {
        var d := PtsDelta(pic.pts, held[n - 1].pts);
        if d < -BREAK_BACK || d > BREAK_AHEAD {
          EmitAll();
        }
      }
      held := held + [pic];
      if |held| > REORDER_DEPTH {
        Emit();
      }
    }
  }

  // ----- nothing is lost or repeated -----

  lemma WithoutOne<T>(s: seq<T>, i: nat)
    requires i < |s|
    ensures multiset(s) == multiset(Without(s, i)) + multiset{s[i]}
  {
    assert s == s[..i] + [s[i]] + s[i + 1..];
  }

  lemma {:induction false} FlushKeeps(b: Buffer)
    ensures b.Flush().held == [] && multiset(b.Flush().out) == multiset(b.out) + multiset(b.held)
    decreases |b.held|
  {
    if b.held != [] {
      WithoutOne(b.held, FirstOf(b.held, |b.held|));
      FlushKeeps(b.Emit());
    }
  }

  lemma TakeKeeps(b: Buffer, pic: Picture)
    ensures multiset(b.Take(pic).held) + multiset(b.Take(pic).out) == multiset(b.held) + multiset(b.out) + multiset{pic}
    ensures |b.held| <= REORDER_DEPTH ==> |b.Take(pic).held| <= REORDER_DEPTH
  {
    hide FirstOf, Without, PtsDelta;
    FlushKeeps(b);
    var c := if b.Breaks(pic) then b.Flush() else b;
    hide Buffer.Breaks, Buffer.Flush;
    var n := Buffer(c.held + [pic], c.out);
    assert multiset(n.held) == multiset(c.held) + multiset{pic};
    if |n.held| > REORDER_DEPTH {
      WithoutOne(n.held, FirstOf(n.held, |n.held|));
    }
  }

  lemma {:induction false} RunKeeps(pics: seq<Picture>)
    ensures multiset(Run(EMPTY, pics).held) + multiset(Run(EMPTY, pics).out) == multiset(pics)
    ensures |Run(EMPTY, pics).held| <= REORDER_DEPTH
  {
    if pics != [] {
      RunKeeps(pics[..|pics| - 1]);
      assert pics == pics[..|pics| - 1] + [pics[|pics| - 1]];
      TakeKeeps(Run(EMPTY, pics[..|pics| - 1]), pics[|pics| - 1]);
    }
  }

  /** Every picture taken in comes out exactly once. */
  lemma EveryPictureOnce(pics: seq<Picture>)
    ensures multiset(Shown(pics)) == multiset(pics)
  {
    RunKeeps(pics);
    FlushKeeps(Run(EMPTY, pics));
  }

  // ----- a break -----

  lemma {:induction false} FlushAfter(held: seq<Picture>, out: seq<Picture>)
    ensures Buffer(held, out).Flush().out == out + Buffer(held, []).Flush().out
    decreases |held|
  {
    if held != [] {
      var i := FirstOf(held, |held|);
      var rest := Without(held, i);
      FlushAfter(rest, out + [held[i]]);
      FlushAfter(rest, [] + [held[i]]);
      var tail := Buffer(rest, []).Flush().out;
      assert out + [held[i]] + tail == out + ([] + [held[i]] + tail);
    }
  }

  lemma TakeAfter(held: seq<Picture>, out: seq<Picture>, pic: Picture)
    ensures Buffer(held, out).Take(pic).held == Buffer(held, []).Take(pic).held
    ensures Buffer(held, out).Take(pic).out == out + Buffer(held, []).Take(pic).out
  {
    FlushAfter(held, out);
    FlushKeeps(Buffer(held, out));
    FlushKeeps(Buffer(held, []));
  }

  /** What came out before stays in front. */
  lemma {:induction false} RunAfter(held: seq<Picture>, out: seq<Picture>, pics: seq<Picture>)
    ensures Run(Buffer(held, out), pics).held == Run(Buffer(held, []), pics).held
    ensures Run(Buffer(held, out), pics).out == out + Run(Buffer(held, []), pics).out
    decreases |pics|
  {
    if pics != [] {
      var before, pic := pics[..|pics| - 1], pics[|pics| - 1];
      RunAfter(held, out, before);
      var one, two := Run(Buffer(held, out), before), Run(Buffer(held, []), before);
      TakeAfter(one.held, one.out, pic);
      TakeAfter(two.held, two.out, pic);
    }
  }

  lemma {:induction false} RunConcat(b: Buffer, one: seq<Picture>, two: seq<Picture>)
    ensures Run(b, one + two) == Run(Run(b, one), two)
    decreases |two|
  {
    if two == [] {
      assert one + two == one;
    } else {
      assert (one + two)[..|one + two| - 1] == one + two[..|two| - 1];
      RunConcat(b, one, two[..|two| - 1]);
    }
  }

  /** At a break every picture of the old clock comes out before any of the new, as two separate streams would. */
  lemma BreakSeparates(old_: seq<Picture>, new_: seq<Picture>)
    requires new_ != [] && Run(EMPTY, old_).Breaks(new_[0])
    ensures Shown(old_ + new_) == Shown(old_) + Shown(new_)
  {
    hide Buffer.Flush, Buffer.Emit, Run, Buffer.Breaks;
    var first, rest := new_[..1], new_[1..];
    var b := Run(EMPTY, old_);
    FlushKeeps(b);
    RunConcat(EMPTY, old_, new_);
    assert new_ == first + rest && first == [new_[0]];
    RunConcat(b, first, rest);
    RunConcat(EMPTY, first, rest);
    RunOne(b, new_[0]);
    RunOne(EMPTY, new_[0]);
    TakeAtBreak(b, new_[0]);
    ContinueAfter(new_[0], b.Flush().out, rest);
  }

  lemma TakeAtBreak(b: Buffer, pic: Picture)
    requires b.Breaks(pic)
    ensures b.Take(pic) == Buffer([pic], b.Flush().out)
    ensures EMPTY.Take(pic) == Buffer([pic], [])
  {
    FlushKeeps(b);
  }

  lemma ContinueAfter(pic: Picture, out: seq<Picture>, rest: seq<Picture>)
    ensures Run(Buffer([pic], out), rest).Flush().out == out + Run(Buffer([pic], []), rest).Flush().out
  {
    hide Buffer.Flush, Run;
    RunAfter([pic], out, rest);
    var one, two := Run(Buffer([pic], out), rest), Run(Buffer([pic], []), rest);
    FlushAfter(one.held, one.out);
    FlushAfter(two.held, two.out);
    assert out + two.out + Buffer(two.held, []).Flush().out == out + (two.out + Buffer(two.held, []).Flush().out);
  }

  lemma RunOne(b: Buffer, pic: Picture)
    ensures Run(b, [pic]) == b.Take(pic)
  {
    assert [pic][..0] == [];
  }

  // ----- one timeline -----

  /**
    The pictures lie on one timeline: us gives each its unwrapped time, all
    within half the clock of each other.
  */
  ghost predicate Timeline(pics: seq<Picture>, us: seq<int>) {
    && |us| == |pics|
    && (forall i :: 0 <= i < |us| ==> pics[i].pts == us[i] % 0x2_0000_0000)
    && (forall i, j :: 0 <= i < |us| && 0 <= j < |us| ==> -0x1_0000_0000 < us[i] - us[j] < 0x1_0000_0000)
  }

  lemma DeltaIsDifference(a: int, b: int)
    requires -0x1_0000_0000 <= a - b < 0x1_0000_0000
    ensures PtsDelta(a % 0x2_0000_0000, b % 0x2_0000_0000) == a - b
  {
    var d := a % CLOCK - b % CLOCK;
    var k := b / CLOCK - a / CLOCK;
    assert d == (a - b) + k * CLOCK;
    if d % CLOCK == a - b {
    } else {
      assert d % CLOCK == a - b + CLOCK;
    }
  }

  /** Arrival i shows before arrival j; pictures with one time keep their order of arrival. */
  ghost predicate Sooner(us: seq<int>, i: nat, j: nat)
    requires i < |us| && j < |us|
  {
    us[i] < us[j] || (us[i] == us[j] && i < j)
  }

  /** The earlier arrivals that show after arrival i. */
  ghost function Ahead(us: seq<int>, i: nat): set<nat>
    requires i < |us|
  {
    set j: nat | j < i && us[j] > us[i]
  }

  ghost predicate NoBreak(pics: seq<Picture>) {
    forall n :: 0 <= n < |pics| ==> !Run(EMPTY, pics[..n]).Breaks(pics[n])
  }

  ghost predicate Within(idx: seq<nat>, n: nat) {
    forall k :: 0 <= k < |idx| ==> idx[k] < n
  }

  ghost function Picked(pics: seq<Picture>, idx: seq<nat>): (r: seq<Picture>)
    requires Within(idx, |pics|)
    ensures |r| == |idx| && forall k :: 0 <= k < |r| ==> r[k] == pics[idx[k]]
  {
    seq(|idx|, k requires 0 <= k < |idx| => pics[idx[k]])
  }

  ghost predicate Rising(idx: seq<nat>) {
    forall p, q :: 0 <= p < q < |idx| ==> idx[p] < idx[q]
  }

  ghost predicate InOrder(us: seq<int>, idx: seq<nat>)
    requires Within(idx, |us|)
  {
    forall p, q :: 0 <= p < q < |idx| ==> Sooner(us, idx[p], idx[q])
  }

  ghost predicate AllSooner(us: seq<int>, one: seq<nat>, two: seq<nat>)
    requires Within(one, |us|) && Within(two, |us|)
  {
    forall p, q :: 0 <= p < |one| && 0 <= q < |two| ==> Sooner(us, one[p], two[q])
  }

  /** b holds and has shown the arrivals h and o, those shown being in order and sooner than those held. */
  ghost predicate Tracked(b: Buffer, pics: seq<Picture>, us: seq<int>, h: seq<nat>, o: seq<nat>) {
    && Timeline(pics, us) && Within(h, |pics|) && Within(o, |pics|)
    && b.held == Picked(pics, h) && b.out == Picked(pics, o)
    && Rising(h) && InOrder(us, o) && AllSooner(us, o, h)
  }

  lemma {:induction false} FirstIsSoonest(pics: seq<Picture>, us: seq<int>, h: seq<nat>, n: nat)
    requires Timeline(pics, us) && Within(h, |pics|) && Rising(h) && 1 <= n <= |h|
    ensures var i := FirstOf(Picked(pics, h), n);
            forall k :: 0 <= k < n && k != i ==> Sooner(us, h[i], h[k])
  {
    if n > 1 {
      FirstIsSoonest(pics, us, h, n - 1);
      var i := FirstOf(Picked(pics, h), n - 1);
      DeltaIsDifference(us[h[n - 1]], us[h[i]]);
      assert h[i] < h[n - 1];
    }
  }

  /** Handing over one held picture keeps the order. */
  lemma EmitTracked(b: Buffer, pics: seq<Picture>, us: seq<int>, h: seq<nat>, o: seq<nat>)
    requires Tracked(b, pics, us, h, o) && h != []
    ensures var i := FirstOf(b.held, |b.held|);
            && Tracked(b.Emit(), pics, us, Without(h, i), o + [h[i]])
            && forall k :: 0 <= k < |h| && k != i ==> Sooner(us, h[i], h[k])
  {
    assert |us| == |pics|;
    hide PtsDelta, Timeline, FirstOf, Without, Sooner;
    var i := FirstOf(b.held, |b.held|);
    FirstIsSoonest(pics, us, h, |h|);
    WithoutPicked(pics, h, i);
    assert b.out + [b.held[i]] == Picked(pics, o + [h[i]]);
    EmitOrder(us, h, o, i);
  }

  lemma EmitOrder(us: seq<int>, h: seq<nat>, o: seq<nat>, i: nat)
    requires i < |h| && Within(h, |us|) && Within(o, |us|) && InOrder(us, o) && AllSooner(us, o, h)
    requires forall k :: 0 <= k < |h| && k != i ==> Sooner(us, h[i], h[k])
    ensures Within(Without(h, i), |us|) && Within(o + [h[i]], |us|)
    ensures InOrder(us, o + [h[i]]) && AllSooner(us, o + [h[i]], Without(h, i))
  {
    hide Sooner;
    var rest := Without(h, i);
    assert forall q :: 0 <= q < |rest| ==> rest[q] == h[if q < i then q else q + 1];
  }

  lemma WithoutPicked(pics: seq<Picture>, h: seq<nat>, i: nat)
    requires Within(h, |pics|) && i < |h|
    ensures Within(Without(h, i), |pics|) && Picked(pics, Without(h, i)) == Without(Picked(pics, h), i)
    ensures Rising(h) ==> Rising(Without(h, i))
  {
  }

  lemma {:induction false} FlushTracked(b: Buffer, pics: seq<Picture>, us: seq<int>, h: seq<nat>, o: seq<nat>)
    returns (order: seq<nat>)
    requires Tracked(b, pics, us, h, o)
    ensures Within(order, |pics|) && b.Flush().out == Picked(pics, order) && InOrder(us, order)
    ensures |order| == |o| + |h|
    decreases |h|
  {
    if h == [] {
      order := o;
    } else {
      var i := FirstOf(b.held, |b.held|);
      EmitTracked(b, pics, us, h, o);
      order := FlushTracked(b.Emit(), pics, us, Without(h, i), o + [h[i]]);
    }
  }

  ghost function Elements(h: seq<nat>): (r: set<nat>)
    ensures forall k :: k in r <==> k in h
  {
    set k | k in h
  }

  lemma {:induction false} RisingSet(h: seq<nat>)
    requires Rising(h)
    ensures |Elements(h)| == |h|
  {
    if h != [] {
      var n := |h| - 1;
      var init, last := h[..n], h[n];
      assert h == init + [last];
      RisingSet(init);
      assert last !in Elements(init);
      assert Elements(h) == Elements(init) + {last};
    }
  }

  /** With at most 8 earlier arrivals still to show after it, an arrival shows after everything already out. */
  lemma ArrivalIsLater(us: seq<int>, h: seq<nat>, o: seq<nat>, n: nat)
    requires n < |us| && Within(h, n) && Within(o, n) && Rising(h)
    requires InOrder(us, o) && AllSooner(us, o, h)
    requires o != [] ==> |h| >= REORDER_DEPTH
    requires |Ahead(us, n)| <= REORDER_DEPTH
    ensures forall p :: 0 <= p < |o| ==> Sooner(us, o[p], n)
  {
    if o != [] {
      var last := o[|o| - 1];
      if us[n] < us[last] {
        var later := Elements(h) + {last};
        forall q | 0 <= q < |h| ensures h[q] != last && us[h[q]] >= us[last] { assert Sooner(us, last, h[q]); }
        RisingSet(h);
        assert |later| == |h| + 1;
        SubsetSize(later, Ahead(us, n));
        assert false;
      }
      forall p | 0 <= p < |o| ensures Sooner(us, o[p], n) {
        assert p < |o| - 1 ==> Sooner(us, o[p], last);
      }
    }
  }

  /** One picture more on the same timeline. */
  lemma TakeTracked(b: Buffer, pics: seq<Picture>, us: seq<int>, h: seq<nat>, o: seq<nat>, n: nat)
    returns (h1: seq<nat>, o1: seq<nat>)
    requires n < |pics| && Tracked(b, pics, us, h, o) && Within(h, n) && Within(o, n)
    requires |h| <= REORDER_DEPTH && (o != [] ==> |h| == REORDER_DEPTH)
    requires |Ahead(us, n)| <= REORDER_DEPTH && !b.Breaks(pics[n])
    ensures Tracked(b.Take(pics[n]), pics, us, h1, o1) && Within(h1, n + 1) && Within(o1, n + 1)
    ensures |h1| <= REORDER_DEPTH && (o1 != [] ==> |h1| == REORDER_DEPTH) && |h1| + |o1| == |h| + |o| + 1
  {
    hide Buffer.Emit, FirstOf, Buffer.Breaks, Buffer.Flush, Tracked, Within, Picked;
    var next := ArrivalTracked(b, pics, us, h, o, n);
    h1, o1 := h + [n], o;
    if |h1| > REORDER_DEPTH {
      var i := FirstOf(next.held, |next.held|);
      EmitTracked(next, pics, us, h1, o1);
      WithinMoved(h1, o1, n + 1, i);
      h1, o1 := Without(h1, i), o1 + [h1[i]];
    }
  }

  /** Taken in but not yet handed over, it is one more held arrival. */
  lemma ArrivalTracked(b: Buffer, pics: seq<Picture>, us: seq<int>, h: seq<nat>, o: seq<nat>, n: nat)
    returns (next: Buffer)
    requires n < |pics| && Tracked(b, pics, us, h, o) && Within(h, n) && Within(o, n)
    requires o != [] ==> |h| == REORDER_DEPTH
    requires |Ahead(us, n)| <= REORDER_DEPTH
    ensures next == Buffer(b.held + [pics[n]], b.out)
    ensures |next.held| == |h| + 1 && |b.held| == |h|
    ensures Tracked(next, pics, us, h + [n], o) && Within(h + [n], n + 1) && Within(o, n + 1)
  {
    assert |us| == |pics|;
    ArrivalIsLater(us, h, o, n);
    hide Timeline, Sooner, Ahead;
    next := Buffer(b.held + [pics[n]], b.out);
    assert next.held == Picked(pics, h + [n]);
  }

  lemma WithinMoved(h: seq<nat>, o: seq<nat>, n: nat, i: nat)
    requires Within(h, n) && Within(o, n) && i < |h|
    ensures Within(Without(h, i), n) && Within(o + [h[i]], n)
  {
  }

  lemma StartTracked(pics: seq<Picture>, us: seq<int>)
    requires Timeline(pics, us)
    ensures Tracked(EMPTY, pics, us, [], []) && Within([], 0) && Run(EMPTY, []) == EMPTY
  {
    assert Picked(pics, []) == [];
  }

  lemma RunStep(pics: seq<Picture>, n: nat)
    requires n < |pics|
    ensures Run(EMPTY, pics[..n + 1]) == Run(EMPTY, pics[..n]).Take(pics[n])
  {
    assert pics[..n + 1][..n] == pics[..n];
  }

  lemma {:induction false} RunTracked(pics: seq<Picture>, us: seq<int>, n: nat) returns (h: seq<nat>, o: seq<nat>)
    requires Timeline(pics, us) && NoBreak(pics) && n <= |pics|
    requires forall i :: 0 <= i < |pics| ==> |Ahead(us, i)| <= REORDER_DEPTH
    ensures Tracked(Run(EMPTY, pics[..n]), pics, us, h, o) && Within(h, n) && Within(o, n)
    ensures |h| <= REORDER_DEPTH && (o != [] ==> |h| == REORDER_DEPTH) && |h| + |o| == n
  {
    hide Ahead, Buffer.Take, Timeline, Run, Tracked, Within, Buffer.Breaks;
    if n == 0 {
      h, o := [], [];
      StartTracked(pics, us);
      assert pics[..0] == [];
    } else {
      h, o := RunTracked(pics, us, n - 1);
      RunStep(pics, n - 1);
      h, o := TakeTracked(Run(EMPTY, pics[..n - 1]), pics, us, h, o, n - 1);
    }
  }

  /**
    On one timeline without a break, where no picture comes more than 8
    pictures late, all pictures come out in display order, those with one time
    in order of arrival.
  */
  lemma ShownInDisplayOrder(pics: seq<Picture>, us: seq<int>) returns (order: seq<nat>)
    requires Timeline(pics, us) && NoBreak(pics)
    requires forall i :: 0 <= i < |pics| ==> |Ahead(us, i)| <= REORDER_DEPTH
    ensures |order| == |pics| && Within(order, |pics|)
    ensures Shown(pics) == Picked(pics, order) && InOrder(us, order)
    ensures forall p, q :: 0 <= p < q < |order| ==> us[order[p]] <= us[order[q]] && order[p] != order[q]
  {
    assert pics[..|pics|] == pics;
    var h, o := RunTracked(pics, us, |pics|);
    order := FlushTracked(Run(EMPTY, pics), pics, us, h, o);
    forall p, q | 0 <= p < q < |order| ensures us[order[p]] <= us[order[q]] && order[p] != order[q] {
      assert Sooner(us, order[p], order[q]);
    }
  }

  /** A picture is on another timeline exactly when it is over a second before the last one held, or over ten seconds after. */
  lemma BreaksExactlyWhen(b: Buffer, pic: Picture, last: int, u: int)
    requires b.held != [] && b.held[|b.held| - 1].pts == last % 0x2_0000_0000 && pic.pts == u % 0x2_0000_0000
    requires -0x1_0000_0000 <= u - last < 0x1_0000_0000
    ensures b.Breaks(pic) <==> u < last - 90_000 || last + 900_000 < u
  {
    DeltaIsDifference(u, last);
  }

  /** On one timeline the buffer holds back the last eight pictures, and no more. */
  lemma {:induction false} EightHeldBack(pics: seq<Picture>)
    requires NoBreak(pics)
    ensures |Run(EMPTY, pics).held| == if |pics| < 8 then |pics| else 8
  {
    if pics != [] {
      var before := pics[..|pics| - 1];
      forall n | 0 <= n < |before| ensures !Run(EMPTY, before[..n]).Breaks(before[n]) {
        assert before[..n] == pics[..n];
      }
      EightHeldBack(before);
      assert !Run(EMPTY, before).Breaks(pics[|pics| - 1]);
    }
  }
}
