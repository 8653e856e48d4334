/** Runs of commercial-length gaps between cuts, found by dynamic programming. Times are seconds. */
module SpotChains {
  datatype Cut = Cut(at: real, grid: real, strength: real)

  datatype Break = Break(start: real, end: real)

  const MIN_SPOTS := 3
  const MAX_SPOT := 125.5
  const LONGEST_BREAK := 240.0

  function Abs(x: real): real { if x < 0.0 then -x else x }

  /** Half away from zero, for the lengths it is asked of. */
  function Round(x: real): int { (x + 0.5).Floor }

  /** 10 s to about two minutes, within half a second of a whole number of 5 s. */
  predicate SpotLength(seconds: real) {
    9.5 <= seconds <= MAX_SPOT && Abs(seconds - 5.0 * Round(seconds / 5.0) as real) <= 0.5
  }

  predicate Spot(cuts: seq<Cut>, i: nat, j: nat)
    requires i < |cuts| && j < |cuts|
  {
    i < j && SpotLength(cuts[j].grid - cuts[i].grid)
  }

  ghost predicate GridInOrder(cuts: seq<Cut>) {
    forall i, j :: 0 <= i < j < |cuts| ==> cuts[i].grid <= cuts[j].grid
  }

  /** The search from cut i gets to cut j: no cut between is farther than any spot is long. */
  predicate Step(cuts: seq<Cut>, i: nat, j: nat)
    requires i < |cuts| && j < |cuts|
  {
    Spot(cuts, i, j) && forall k :: i < k < j ==> cuts[k].grid - cuts[i].grid <= MAX_SPOT
  }

  /** Cuts by index, each a spot after the one before. It may step over cuts. */
  ghost predicate Chain(cuts: seq<Cut>, c: seq<nat>) {
    && c != []
    && (forall k :: 0 <= k < |c| ==> c[k] < |cuts|)
    && (forall k :: 0 <= k < |c| - 1 ==> Spot(cuts, c[k], c[k + 1]))
  }

  /** A chain of steps the search gets to. */
  ghost predicate SeenChain(cuts: seq<Cut>, c: seq<nat>) {
    && c != []
    && (forall k :: 0 <= k < |c| ==> c[k] < |cuts|)
    && (forall k :: 0 <= k < |c| - 1 ==> Step(cuts, c[k], c[k + 1]))
  }

  /** n is the most spots of any chain from cut i. */
  ghost predicate MostSpots(cuts: seq<Cut>, i: nat, n: int) {
    && (exists c :: Chain(cuts, c) && c[0] == i && |c| == n + 1)
    && (forall c :: Chain(cuts, c) && c[0] == i ==> |c| <= n + 1)
  }

  /** n is the most spots of any chain the search gets to from cut i. */
  ghost predicate MostSeen(cuts: seq<Cut>, i: nat, n: int) {
    && (exists c :: SeenChain(cuts, c) && c[0] == i && |c| == n + 1)
    && (forall c :: SeenChain(cuts, c) && c[0] == i ==> |c| <= n + 1)
  }

  /** No spot lies past a cut farther than any spot is long. */
  ghost predicate NoSpotHidden(cuts: seq<Cut>) {
    forall i: nat, j: nat :: i < |cuts| && j < |cuts| && Spot(cuts, i, j) ==> Step(cuts, i, j)
  }

  /** The search gets to every chain exactly when no spot is hidden. */
  lemma AllSeenExactlyWhen(cuts: seq<Cut>)
    ensures (forall c :: Chain(cuts, c) <==> SeenChain(cuts, c)) <==> NoSpotHidden(cuts)
  {
    if forall c :: Chain(cuts, c) <==> SeenChain(cuts, c) {
      forall i: nat, j: nat | i < |cuts| && j < |cuts| && Spot(cuts, i, j) ensures Step(cuts, i, j) {
        assert Chain(cuts, [i, j]);
        assert SeenChain(cuts, [i, j]) && [i, j][0] == i && [i, j][0 + 1] == j;
      }
    }
  }

  /** With grid times in order no spot is hidden, and the most seen is the most there is. */
  lemma InOrderAllSeen(cuts: seq<Cut>)
    requires GridInOrder(cuts)
    ensures NoSpotHidden(cuts)
    ensures forall i: nat, n: int :: MostSpots(cuts, i, n) <==> MostSeen(cuts, i, n)
  {
    forall i: nat, j: nat | i < |cuts| && j < |cuts| ensures Step(cuts, i, j) <==> Spot(cuts, i, j) {
    }
    AllSeenExactlyWhen(cuts);
  }

  lemma ChainRest(cuts: seq<Cut>, c: seq<nat>)
    requires SeenChain(cuts, c) && |c| > 1
    ensures SeenChain(cuts, c[1..]) && Step(cuts, c[0], c[1])
  {
  }

  lemma ChainFront(cuts: seq<Cut>, i: nat, c: seq<nat>)
    requires i < |cuts| && SeenChain(cuts, c) && Step(cuts, i, c[0])
    ensures SeenChain(cuts, [i] + c)
  {
    var d := [i] + c;
    forall k | 0 <= k < |d| - 1 ensures Step(cuts, d[k], d[k + 1]) {
      if k > 0 { assert d[k] == c[k - 1] && d[k + 1] == c[k]; }
    }
  }

  /** No chain from i steps first to a cut from `to` on. */
  ghost predicate StepsBefore(cuts: seq<Cut>, i: nat, to: nat, n: nat) {
    forall c :: SeenChain(cuts, c) && c[0] == i && (|c| > 1 ==> c[1] < to) ==> |c| <= n + 1
  }

  /** Past a gap longer than a spot the search gets to nothing. */
  lemma NothingPast(cuts: seq<Cut>, i: nat, j: nat, n: nat)
    requires i < j <= |cuts| && StepsBefore(cuts, i, j, n)
    requires j == |cuts| || cuts[j].grid - cuts[i].grid > MAX_SPOT
    ensures forall c :: SeenChain(cuts, c) && c[0] == i ==> |c| <= n + 1
  {
    forall c | SeenChain(cuts, c) && c[0] == i ensures |c| <= n + 1 {
      if |c| > 1 {
        ChainRest(cuts, c);
      }
    }
  }

  lemma StepTo(cuts: seq<Cut>, i: nat, j: nat, n: nat, m: nat)
    requires i < j < |cuts| && StepsBefore(cuts, i, j, n)
    requires Step(cuts, i, j) ==> MostSeen(cuts, j, m) && 1 + m <= n
    ensures StepsBefore(cuts, i, j + 1, n)
  {
    forall c | SeenChain(cuts, c) && c[0] == i && (|c| > 1 ==> c[1] < j + 1) ensures |c| <= n + 1 {
      if |c| > 1 {
        ChainRest(cuts, c);
        if c[1] == j {
          assert c[1..][0] == j && SeenChain(cuts, c[1..]);
        }
      }
    }
  }

  lemma LongerChain(cuts: seq<Cut>, i: nat, j: nat, m: nat)
    requires i < |cuts| && j < |cuts| && Step(cuts, i, j) && MostSeen(cuts, j, m)
    ensures HasChain(cuts, i, m + 1)
  {
    var c :| SeenChain(cuts, c) && c[0] == j && |c| == m + 1;
    ChainFront(cuts, i, c);
    assert ([i] + c)[0] == i;
  }

  lemma AloneChain(cuts: seq<Cut>, i: nat)
    requires i < |cuts|
    ensures StepsBefore(cuts, i, i + 1, 0)
    ensures HasChain(cuts, i, 0)
  {
    assert SeenChain(cuts, [i]) && [i][0] == i;
    forall c | SeenChain(cuts, c) && c[0] == i && (|c| > 1 ==> c[1] < i + 1) ensures |c| <= 1 {
      if |c| > 1 {
        ChainRest(cuts, c);
      }
    }
  }

  /** The step cut i takes first, if any, and the spots that follow. */
  ghost predicate Linked(cuts: seq<Cut>, length: seq<nat>, next: seq<int>, i: nat)
    requires |length| == |next| == |cuts| && i < |cuts|
  {
    if length[i] == 0 then next[i] == -1
    else i < next[i] < |cuts| && Step(cuts, i, next[i]) && length[i] == 1 + length[next[i]]
  }

  ghost predicate HasChain(cuts: seq<Cut>, i: nat, n: nat) {
    exists c :: SeenChain(cuts, c) && c[0] == i && |c| == n + 1
  }

  /** Solves cut i from the cuts after it. */
  method SolveCut(cuts: seq<Cut>, i: nat, length: array<nat>, next: array<int>)
    requires i < |cuts| == length.Length == next.Length
    requires length[i] == 0
    requires forall k: nat :: i < k < |cuts| ==> MostSeen(cuts, k, length[k])
    modifies length, next
    ensures length[..] == old(length[..])[i := length[i]] && next[..] == old(next[..])[i := next[i]]
    ensures Linked(cuts, length[..], next[..], i)
    ensures MostSeen(cuts, i, length[i])
  {
    hide SeenChain, MostSeen, SpotLength, StepsBefore, HasChain;
    var n := |cuts|;
    ghost var l0, n0 := length[..], next[..];
    next[i] := -1;
    AloneChain(cuts, i);
    var j := i + 1;
    while j < n && cuts[j].grid - cuts[i].grid <= MAX_SPOT
      invariant i < j <= n
      invariant length[..] == l0[i := length[i]] && next[..] == n0[i := next[i]]
      invariant Linked(cuts, length[..], next[..], i)
      invariant StepsBefore(cuts, i, j, length[i]) && HasChain(cuts, i, length[i])
      invariant forall k :: i < k < j ==> cuts[k].grid - cuts[i].grid <= MAX_SPOT
    {
      ghost var was := length[i];
      if SpotLength(cuts[j].grid - cuts[i].grid) && 1 + length[j] > length[i] {
        length[i], next[i] := 1 + length[j], j;
        LongerChain(cuts, i, j, length[j]);
      }
      FewerSteps(cuts, i, j, was, length[i]);
      StepTo(cuts, i, j, length[i], length[j]);
      j := j + 1;
    }
    NothingPast(cuts, i, j, length[i]);
    BestFound(cuts, i, length[i]);
  }

  lemma FewerSteps(cuts: seq<Cut>, i: nat, to: nat, n: nat, more: nat)
    requires StepsBefore(cuts, i, to, n) && n <= more
    ensures StepsBefore(cuts, i, to, more)
  {
  }

  lemma BestFound(cuts: seq<Cut>, i: nat, n: nat)
    requires HasChain(cuts, i, n) && forall c :: SeenChain(cuts, c) && c[0] == i ==> |c| <= n + 1
    ensures MostSeen(cuts, i, n)
  {
  }

  lemma LinksStay(cuts: seq<Cut>, l0: seq<nat>, n0: seq<int>, length: seq<nat>, next: seq<int>, i: nat)
    requires i < |cuts| == |l0| == |n0| == |length| == |next|
    requires length == l0[i := length[i]] && next == n0[i := next[i]]
    ensures forall k: nat :: i < k < |cuts| && Linked(cuts, l0, n0, k) ==> Linked(cuts, length, next, k)
  {
  }

  /** For each cut, the most spots of a chain from it and where its first spot ends. */
  method FillLengths(cuts: seq<Cut>) returns (length: array<nat>, next: array<int>)
    ensures length.Length == |cuts| == next.Length
    ensures forall i: nat :: i < |cuts| ==> Linked(cuts, length[..], next[..], i)
    ensures forall i: nat :: i < |cuts| ==> MostSeen(cuts, i, length[i])
    ensures GridInOrder(cuts) ==> forall i: nat :: i < |cuts| ==> MostSpots(cuts, i, length[i])
  {
    hide Step, MostSeen;
    var n := |cuts|;
    length := new nat[n](_ => 0);
    next := new int[n](_ => -1);
    for i := n downto 0
      invariant forall k :: 0 <= k < i ==> length[k] == 0
      invariant forall k: nat :: i <= k < n ==> Linked(cuts, length[..], next[..], k)
      invariant forall k: nat :: i <= k < n ==> MostSeen(cuts, k, length[k])
    {
      ghost var l0, n0 := length[..], next[..];
      SolveCut(cuts, i, length, next);
      LinksStay(cuts, l0, n0, length[..], next[..], i);
      assert forall k :: 0 <= k < n && k != i ==> length[k] == length[..][k] == l0[k];
    }
    if GridInOrder(cuts) {
      InOrderAllSeen(cuts);
    }
  }

  // ----- the chains found -----

  /** A chain's cuts by index, from one cut to a later one, at most a break long. */
  ghost predicate Found(cuts: seq<Cut>, c: seq<nat>, times: seq<real>) {
    && SeenChain(cuts, c) && |c| > MIN_SPOTS && |times| == |c|
    && (forall k :: 0 <= k < |c| ==> times[k] == cuts[c[k]].at)
    && (forall k :: 0 < k < |c| ==> cuts[c[k]].at - cuts[c[0]].at <= LONGEST_BREAK)
  }

  /** The links from end on, while they stay within a break that starts at cut i. */
  ghost function Walk(cuts: seq<Cut>, next: seq<int>, i: nat, end: nat): (c: seq<nat>)
    requires i < |cuts| == |next| && end < |cuts|
    ensures c != [] && c[0] == end
    decreases |cuts| - end
  {
    if end < next[end] < |cuts| && cuts[next[end]].at - cuts[i].at <= LONGEST_BREAK
    then [end] + Walk(cuts, next, i, next[end])
    else [end]
  }

  /** Follows the links from cut i while the chain stays within a break. */
  method Follow(cuts: seq<Cut>, next: array<int>, i: nat, ghost length: seq<nat>)
    returns (chain: seq<real>, end: nat, ghost c: seq<nat>)
    requires i < |cuts| == next.Length == |length|
    requires forall k: nat :: k < |cuts| ==> Linked(cuts, length, next[..], k)
    ensures SeenChain(cuts, c) && c[0] == i && c[|c| - 1] == end && |chain| == |c| && end >= i + |c| - 1
    ensures forall k :: 0 <= k < |c| ==> chain[k] == cuts[c[k]].at && c[k] <= end
    ensures forall k :: 0 < k < |c| ==> cuts[c[k]].at - cuts[i].at <= LONGEST_BREAK
    ensures end < |cuts| && |c| <= length[i] + 1 && c == Walk(cuts, next[..], i, i)
  {
    hide Step, Walk, SeenChain;
    OneCut(cuts, i);
    chain, end, c := [cuts[i].at], i, [i];
    while next[end] >= 0 && cuts[next[end]].at - cuts[i].at <= LONGEST_BREAK
      invariant end < |cuts| && Linked(cuts, length, next[..], end)
      invariant SeenChain(cuts, c) && c != [] && c[0] == i && c[|c| - 1] == end && |chain| == |c| && end >= i + |c| - 1
      invariant forall k :: 0 <= k < |c| ==> c[k] <= end && chain[k] == cuts[c[k]].at
      invariant forall k :: 0 < k < |c| ==> cuts[c[k]].at - cuts[i].at <= LONGEST_BREAK
      invariant |c| + length[end] == length[i] + 1
      invariant c[..|c| - 1] + Walk(cuts, next[..], i, end) == Walk(cuts, next[..], i, i)
      decreases |cuts| - end
    {
      assert Linked(cuts, length, next[..], end);
      WalkOn(cuts, next[..], i, end);
      ChainBack(cuts, c, next[end]);
      Regrouped(c, end, Walk(cuts, next[..], i, next[end]));
      end := next[end];
      chain := chain + [cuts[end].at];
      ghost var longer := c + [end];
      assert longer[..|longer| - 1] == c;
      c := longer;
    }
    WalkOn(cuts, next[..], i, end);
  }

  lemma Regrouped(c: seq<nat>, end: nat, rest: seq<nat>)
    requires c != [] && c[|c| - 1] == end
    ensures c[..|c| - 1] + ([end] + rest) == c + rest
  {
  }

  lemma OneCut(cuts: seq<Cut>, i: nat)
    requires i < |cuts|
    ensures SeenChain(cuts, [i])
  {
  }

  lemma WalkOn(cuts: seq<Cut>, next: seq<int>, i: nat, end: nat)
    requires i < |cuts| == |next| && end < |cuts|
    ensures Walk(cuts, next, i, end) ==
      if end < next[end] < |cuts| && cuts[next[end]].at - cuts[i].at <= LONGEST_BREAK
      then [end] + Walk(cuts, next, i, next[end])
      else [end]
  {
  }

  lemma ChainBack(cuts: seq<Cut>, c: seq<nat>, j: nat)
    requires SeenChain(cuts, c) && j < |cuts| && Step(cuts, c[|c| - 1], j)
    ensures SeenChain(cuts, c + [j])
  {
    var d := c + [j];
    forall k | 0 <= k < |d| - 1 ensures Step(cuts, d[k], d[k + 1]) {
      if k < |c| - 1 { assert d[k] == c[k] && d[k + 1] == c[k + 1]; }
    }
  }

  /** Chains that follow each other and share at most an endpoint. */
  ghost predicate Apart(chains: seq<seq<nat>>, upTo: nat) {
    && (forall p :: 0 <= p < |chains| ==> chains[p] != [] && chains[p][|chains[p]| - 1] <= upTo)
    && (forall p, q :: 0 <= p < q < |chains| ==> chains[p][|chains[p]| - 1] <= chains[q][0])
  }

  /** Cut k starts no run of its own, or is passed over inside a run found before. */
  ghost predicate Settled(cuts: seq<Cut>, length: seq<nat>, next: seq<int>, chains: seq<seq<nat>>, k: nat)
    requires k < |cuts| == |length| == |next|
  {
    || length[k] < MIN_SPOTS
    || |Walk(cuts, next, k, k)| <= MIN_SPOTS
    || exists p :: 0 <= p < |chains| && Passes(chains[p], k)
  }

  ghost predicate Passes(c: seq<nat>, k: nat) { c != [] && c[0] <= k < c[|c| - 1] }

  /** The runs of at least three spots, as the times of their cuts. */
  method FindChains(cuts: seq<Cut>)
    returns (out: seq<seq<real>>, ghost chains: seq<seq<nat>>, ghost ls: seq<nat>, ghost ns: seq<int>)
    ensures forall p :: 0 <= p < |out| ==> |out[p]| > 3
    ensures forall p, k :: 0 <= p < |out| && 0 < k < |out[p]| ==> out[p][k] - out[p][0] <= 240.0
    ensures |chains| == |out| && forall p :: 0 <= p < |out| ==> Found(cuts, chains[p], out[p])
    ensures Apart(chains, |cuts|)
    ensures |ls| == |cuts| == |ns| && forall k: nat :: k < |cuts| ==> MostSeen(cuts, k, ls[k]) && Linked(cuts, ls, ns, k)
    ensures forall k: nat :: k < |cuts| ==> Settled(cuts, ls, ns, chains, k)
  {
    hide SeenChain, Step, Linked, MostSeen, MostSpots, Walk;
    out, chains := [], [];
    var length, next := FillLengths(cuts);
    ls, ns := length[..], next[..];
    var n, i := |cuts|, 0;
    while i < n
      invariant 0 <= i <= n && length[..] == ls && next[..] == ns
      invariant |chains| == |out| && forall p :: 0 <= p < |out| ==> Found(cuts, chains[p], out[p])
      invariant Apart(chains, i)
      invariant forall k: nat :: k < i ==> Settled(cuts, ls, ns, chains, k)
      decreases n - i
    {
      if length[i] < MIN_SPOTS {
        i := i + 1;
        continue;
      }
      var chain, end, c := Follow(cuts, next, i, ls);
      if |chain| <= MIN_SPOTS {
        i := i + 1;
        continue;
      }
      AddChain(chains, c, i, end);
      StillSettled(cuts, ls, ns, chains, c, i, end);
      out, chains := out + [chain], chains + [c];
      i := end - 1;
      i := i + 1;
    }
  }

  lemma StillSettled(cuts: seq<Cut>, length: seq<nat>, next: seq<int>, chains: seq<seq<nat>>, c: seq<nat>, i: nat, end: nat)
    requires i <= end < |cuts| == |length| == |next|
    requires c != [] && c[0] == i && c[|c| - 1] == end
    requires forall k: nat :: k < i ==> Settled(cuts, length, next, chains, k)
    ensures forall k: nat :: k < end ==> Settled(cuts, length, next, chains + [c], k)
  {
    var more := chains + [c];
    forall k: nat | k < end ensures Settled(cuts, length, next, more, k) {
      if k < i {
        assert Settled(cuts, length, next, chains, k);
        if p :| 0 <= p < |chains| && Passes(chains[p], k) {
          assert Passes(more[p], k);
        }
      } else {
        assert Passes(more[|chains|], k);
      }
    }
  }

  lemma AddChain(chains: seq<seq<nat>>, c: seq<nat>, i: nat, end: nat)
    requires Apart(chains, i) && c != [] && c[0] == i <= end && c[|c| - 1] == end
    ensures Apart(chains + [c], end)
  {
  }

  // ----- the longest chain inside a span -----

  predicate Inside(cut: Cut, b: Break) {
    b.start - 0.5 <= cut.at <= b.end + 0.5
  }

  ghost predicate ChainInside(cuts: seq<Cut>, b: Break, c: seq<nat>) {
    Chain(cuts, c) && forall k :: 0 <= k < |c| ==> Inside(cuts[c[k]], b)
  }

  /** n is the most spots of any chain of cuts inside the span, or 0 when it has none. */
  ghost predicate MostInside(cuts: seq<Cut>, b: Break, n: nat) {
    && (forall c :: ChainInside(cuts, b, c) ==> |c| <= n + 1)
    && (n > 0 ==> exists c :: ChainInside(cuts, b, c) && |c| == n + 1)
  }

  /** The cuts inside the span, in their order. */
  function InsideCuts(cuts: seq<Cut>, b: Break): seq<Cut> {
    if cuts == [] then []
    else
      var n := |cuts| - 1;
      InsideCuts(cuts[..n], b) + if Inside(cuts[n], b) then [cuts[n]] else []
  }

  /** n is the most spots of any chain the search gets to, or 0 when there is none. */
  ghost predicate MostSeenIn(inside: seq<Cut>, n: nat) {
    && (forall c :: SeenChain(inside, c) ==> |c| <= n + 1)
    && (n > 0 ==> exists c :: SeenChain(inside, c) && |c| == n + 1)
  }

  /** The cuts inside the span, and where each came from. */
  ghost predicate Sifted(cuts: seq<Cut>, b: Break, n: nat, inside: seq<Cut>, idx: seq<nat>)
    requires n <= |cuts|
  {
    && |inside| == |idx|
    && (forall k :: 0 <= k < |idx| ==> idx[k] < n && inside[k] == cuts[idx[k]] && Inside(inside[k], b))
    && (forall k, m :: 0 <= k < m < |idx| ==> idx[k] < idx[m])
    && (forall i: nat :: i < n && Inside(cuts[i], b) ==> exists k :: 0 <= k < |idx| && idx[k] == i)
  }

  method Sift(cuts: seq<Cut>, b: Break) returns (inside: seq<Cut>, ghost idx: seq<nat>)
    ensures Sifted(cuts, b, |cuts|, inside, idx) && inside == InsideCuts(cuts, b)
  {
    inside, idx := [], [];
    assert Sifted(cuts, b, 0, inside, idx);
    hide Sifted;
    for i := 0 to |cuts|
      invariant Sifted(cuts, b, i, inside, idx) && inside == InsideCuts(cuts[..i], b)
    {
      assert cuts[..i + 1][..i] == cuts[..i] && inside + [] == inside;
      SiftedNext(cuts, b, i, inside, idx);
      if cuts[i].at >= b.start - 0.5 && cuts[i].at <= b.end + 0.5 {
        inside, idx := inside + [cuts[i]], idx + [i];
      }
    }
    assert cuts[..|cuts|] == cuts;
  }

  lemma SiftedNext(cuts: seq<Cut>, b: Break, i: nat, inside: seq<Cut>, idx: seq<nat>)
    requires i < |cuts| && Sifted(cuts, b, i, inside, idx)
    ensures if Inside(cuts[i], b) then Sifted(cuts, b, i + 1, inside + [cuts[i]], idx + [i])
            else Sifted(cuts, b, i + 1, inside, idx)
  {
    var more := if Inside(cuts[i], b) then idx + [i] else idx;
    hide Inside;
    forall m: nat | m < i + 1 && Inside(cuts[m], b) ensures exists k :: 0 <= k < |more| && more[k] == m {
      if m < i {
        var k :| 0 <= k < |idx| && idx[k] == m;
        assert more[k] == m;
      } else {
        assert more[|idx|] == m;
      }
    }
  }

  /** A chain of the sifted cuts is one of the cuts it was sifted from. */
  lemma Unsift(cuts: seq<Cut>, b: Break, inside: seq<Cut>, idx: seq<nat>, c: seq<nat>) returns (d: seq<nat>)
    requires Sifted(cuts, b, |cuts|, inside, idx) && Chain(inside, c)
    ensures ChainInside(cuts, b, d) && |d| == |c|
  {
    d := seq(|c|, k requires 0 <= k < |c| => idx[c[k]]);
    forall k | 0 <= k < |d| - 1 ensures Spot(cuts, d[k], d[k + 1]) {
      assert Spot(inside, c[k], c[k + 1]);
    }
  }

  ghost function Place(idx: seq<nat>, i: nat): (k: nat)
    requires exists k :: 0 <= k < |idx| && idx[k] == i
    ensures k < |idx| && idx[k] == i
  {
    var k :| 0 <= k < |idx| && idx[k] == i;
    k
  }

  /** And the other way about. */
  lemma Resift(cuts: seq<Cut>, b: Break, inside: seq<Cut>, idx: seq<nat>, c: seq<nat>) returns (d: seq<nat>)
    requires Sifted(cuts, b, |cuts|, inside, idx) && ChainInside(cuts, b, c)
    ensures Chain(inside, d) && |d| == |c|
  {
    forall k | 0 <= k < |c| ensures exists m :: 0 <= m < |idx| && idx[m] == c[k] {
      assert Inside(cuts[c[k]], b);
    }
    d := seq(|c|, k requires 0 <= k < |c| => Place(idx, c[k]));
    forall k | 0 <= k < |d| - 1 ensures Spot(inside, d[k], d[k + 1]) {
      assert Spot(cuts, c[k], c[k + 1]);
      assert idx[d[k]] < idx[d[k + 1]];
    }
  }

  lemma SiftedGrid(cuts: seq<Cut>, b: Break, inside: seq<Cut>, idx: seq<nat>)
    requires Sifted(cuts, b, |cuts|, inside, idx) && GridInOrder(cuts)
    ensures GridInOrder(inside)
  {
  }

  method SpotsWithin(cuts: seq<Cut>, b: Break) returns (best: nat)
    ensures MostSeenIn(InsideCuts(cuts, b), best)
    ensures GridInOrder(cuts) ==> MostInside(cuts, b, best)
  {
    hide Chain, Spot, Sifted, Linked, GridInOrder;
    var inside, idx := Sift(cuts, b);
    var length, next := FillLengths(inside);
    best := 0;
    for i := |inside| downto 0
      invariant forall k :: i <= k < |inside| ==> length[k] <= best
      invariant best == 0 || exists k :: i <= k < |inside| && length[k] == best
    {
      if length[i] > best {
        best := length[i];
      }
    }
    BestSeen(inside, length[..], best);
    if GridInOrder(cuts) {
      SiftedGrid(cuts, b, inside, idx);
      BestInside(cuts, b, inside, idx, length[..], best);
    }
  }

  lemma BestInside(cuts: seq<Cut>, b: Break, inside: seq<Cut>, idx: seq<nat>, length: seq<nat>, best: nat)
    requires Sifted(cuts, b, |cuts|, inside, idx) && |length| == |inside|
    requires forall i: nat :: i < |inside| ==> MostSpots(inside, i, length[i]) && length[i] <= best
    requires best == 0 || exists k :: 0 <= k < |inside| && length[k] == best
    ensures MostInside(cuts, b, best)
  {
    hide Spot, Sifted;
    forall c | ChainInside(cuts, b, c) ensures |c| <= best + 1 {
      var d := Resift(cuts, b, inside, idx, c);
      assert MostSpots(inside, d[0], length[d[0]]);
    }
    if best > 0 {
      var k :| 0 <= k < |inside| && length[k] == best;
      assert MostSpots(inside, k, best);
      var c :| Chain(inside, c) && c[0] == k && |c| == best + 1;
      var d := Unsift(cuts, b, inside, idx, c);
    }
  }

  lemma BestSeen(inside: seq<Cut>, length: seq<nat>, best: nat)
    requires |length| == |inside|
    requires forall i: nat :: i < |inside| ==> MostSeen(inside, i, length[i]) && length[i] <= best
    requires best == 0 || exists k :: 0 <= k < |inside| && length[k] == best
    ensures MostSeenIn(inside, best)
  {
    hide Step;
    forall c | SeenChain(inside, c) ensures |c| <= best + 1 {
      assert MostSeen(inside, c[0], length[c[0]]);
    }
    if best > 0 {
      var k :| 0 <= k < |inside| && length[k] == best;
      assert MostSeen(inside, k, best);
    }
  }

  ghost predicate InTime(cuts: seq<Cut>) {
    forall i, j :: 0 <= i < j < |cuts| ==> cuts[i].at <= cuts[j].at
  }

  lemma BetweenInside(cuts: seq<Cut>, b: Break, i: nat, j: nat, k: nat)
    requires InTime(cuts) && i < j < k < |cuts| && Inside(cuts[i], b) && Inside(cuts[k], b)
    ensures Inside(cuts[j], b)
  {
  }

  /** Of cuts in time order, those inside a span are neighbours. */
  lemma {:induction false} InsideIsSlice(cuts: seq<Cut>, b: Break) returns (lo: nat, hi: nat)
    requires InTime(cuts)
    ensures lo <= hi <= |cuts| && InsideCuts(cuts, b) == cuts[lo..hi]
    ensures forall k :: 0 <= k < |cuts| ==> (lo <= k < hi <==> Inside(cuts[k], b))
  {
    if cuts == [] {
      return 0, 0;
    }
    var n := |cuts| - 1;
    lo, hi := InsideIsSlice(cuts[..n], b);
    SliceOfSlice(cuts, 0, n, lo, hi);
    assert cuts[..n] == cuts[0..n];
    assert forall k :: 0 <= k < n ==> cuts[..n][k] == cuts[k];
    hide Inside;
    lo, hi := NextInside(cuts, b, lo, hi);
  }

  lemma NextInside(cuts: seq<Cut>, b: Break, lo0: nat, hi0: nat) returns (lo: nat, hi: nat)
    requires InTime(cuts) && cuts != [] && lo0 <= hi0 <= |cuts| - 1
    requires forall k :: 0 <= k < |cuts| - 1 ==> (lo0 <= k < hi0 <==> Inside(cuts[k], b))
    ensures lo <= hi <= |cuts|
    ensures cuts[lo..hi] == cuts[lo0..hi0] + if Inside(cuts[|cuts| - 1], b) then [cuts[|cuts| - 1]] else []
    ensures forall k :: 0 <= k < |cuts| ==> (lo <= k < hi <==> Inside(cuts[k], b))
  {
    hide Inside, InTime;
    var n := |cuts| - 1;
    lo, hi := lo0, hi0;
    if Inside(cuts[n], b) {
      if lo == hi {
        lo, hi := n, n + 1;
      } else {
        if hi < n {
          BetweenInside(cuts, b, hi - 1, hi, n);
          assert false;
        }
        hi := n + 1;
      }
    }
  }

  lemma SliceOfSlice(cuts: seq<Cut>, from: nat, to: nat, lo: nat, hi: nat)
    requires from <= to <= |cuts| && lo <= hi <= to - from
    ensures cuts[from..to][lo..hi] == cuts[from + lo..from + hi]
  {
    var a, b := cuts[from..to][lo..hi], cuts[from + lo..from + hi];
    forall k | 0 <= k < hi - lo ensures a[k] == b[k] {
    }
  }

  lemma SliceChain(w: seq<Cut>, d: nat, e: nat, c: seq<nat>) returns (shifted: seq<nat>)
    requires d <= e <= |w| && SeenChain(w[d..e], c)
    ensures SeenChain(w, shifted) && |shifted| == |c|
  {
    shifted := seq(|c|, k requires 0 <= k < |c| => c[k] + d);
    forall k | 0 <= k < |shifted| - 1 ensures Step(w, shifted[k], shifted[k + 1]) {
      assert Step(w[d..e], c[k], c[k + 1]);
      forall m | shifted[k] < m < shifted[k + 1] ensures w[m].grid - w[shifted[k]].grid <= MAX_SPOT {
        assert w[m] == w[d..e][m - d];
      }
    }
  }

  /** Widening the span never lowers the count the search gives, whatever the grid times. */
  lemma WiderNeverFewer(cuts: seq<Cut>, b: Break, wide: Break, n: nat, m: nat)
    requires InTime(cuts) && wide.start <= b.start && b.end <= wide.end
    requires MostSeenIn(InsideCuts(cuts, b), n) && MostSeenIn(InsideCuts(cuts, wide), m)
    ensures n <= m
  {
    hide SeenChain, InsideCuts, InTime;
    if n > 0 {
      var c :| SeenChain(InsideCuts(cuts, b), c) && |c| == n + 1;
      var lo, hi := InsideIsSlice(cuts, b);
      var from, to := InsideIsSlice(cuts, wide);
      SeenNotEmpty(cuts[lo..hi], c);
      assert Inside(cuts[lo], b) && Inside(cuts[hi - 1], b);
      assert Inside(cuts[lo], wide) && Inside(cuts[hi - 1], wide);
      hide Inside;
      assert from <= lo && hi <= to;
      var w := cuts[from..to];
      SliceOfSlice(cuts, from, to, lo - from, hi - from);
      var d := SliceChain(w, lo - from, hi - from, c);
    }
  }

  lemma SeenNotEmpty(cuts: seq<Cut>, c: seq<nat>)
    requires SeenChain(cuts, c)
    ensures cuts != []
  {
    assert c[0] < |cuts|;
  }

  /**
    With grid times out of order the search can stop before a spot: here at a
    cut 200 s on, before one inside a long black stretch that began after 10 s.
    It counts none where there is one.
  */
  lemma GridOrderMatters()
    ensures var cuts := [Cut(0.0, 0.0, 1.0), Cut(200.0, 200.0, 1.0), Cut(205.0, 10.0, 1.0)];
            InTime(cuts) && MostSeen(cuts, 0, 0) && !MostSpots(cuts, 0, 0)
  {
    var cuts := [Cut(0.0, 0.0, 1.0), Cut(200.0, 200.0, 1.0), Cut(205.0, 10.0, 1.0)];
    assert Round(2.0) == 2;
    assert Chain(cuts, [0, 2]) && [0, 2][0] == 0;
    AloneChain(cuts, 0);
    assert cuts[1].grid - cuts[0].grid > MAX_SPOT;
    NothingPast(cuts, 0, 1, 0);
    BestFound(cuts, 0, 0);
  }

  // ----- lengths and windows in plain terms -----

  /** k times five seconds, to half a second. */
  ghost predicate AboutFives(seconds: real, k: int) {
    5.0 * k as real - 0.5 <= seconds <= 5.0 * k as real + 0.5
  }

  /** A spot lasts about some whole number of five seconds, from ten seconds to two minutes and five. */
  lemma SpotLengthMeans(seconds: real)
    ensures SpotLength(seconds) <==> exists k :: 2 <= k <= 25 && AboutFives(seconds, k)
  {
    var k := Round(seconds / 5.0);
    RoundIsNearest(seconds / 5.0);
    if SpotLength(seconds) {
      assert AboutFives(seconds, k);
    }
    if j :| 2 <= j <= 25 && AboutFives(seconds, j) {
      assert -0.5 < seconds / 5.0 - j as real < 0.5;
      assert k == j;
    }
  }

  lemma RoundIsNearest(x: real)
    ensures Round(x) as real - 0.5 <= x < Round(x) as real + 0.5
  {
  }

  ghost predicate WithinHalf(a: real, b: real) { b - 0.5 <= a <= b + 0.5 }

  /** The cuts counted inside a span are those at most half a second from some moment of it. */
  lemma InsideMeans(cuts: seq<Cut>, b: Break, cut: Cut)
    requires b.start <= b.end
    ensures cut in InsideCuts(cuts, b) <==> cut in cuts && exists x :: b.start <= x <= b.end && WithinHalf(cut.at, x)
  {
    InsideAre(cuts, b, cut);
    var x := if cut.at < b.start then b.start else if cut.at > b.end then b.end else cut.at;
    if Inside(cut, b) {
      assert WithinHalf(cut.at, x);
    }
  }

  lemma {:induction false} InsideAre(cuts: seq<Cut>, b: Break, cut: Cut)
    ensures cut in InsideCuts(cuts, b) <==> cut in cuts && Inside(cut, b)
  {
    if cuts != [] {
      var n := |cuts| - 1;
      InsideAre(cuts[..n], b, cut);
      assert cuts == cuts[..n] + [cuts[n]];
    }
  }
}
