/**
  The sending side of section reassembly: sections cut into packets by the
  rules of section 2.4.4 of ISO/IEC 13818-1, several packet ids interleaved,
  packets repeated, and packets lost on the way. Reassembly gives back what
  arrived whole.
*/
module SectionStream {
  import opened Collections
  import opened Sections

  predicate Valid(s: seq<byte>) {
    8 <= |s| <= 4096 && s[0] != 0xFF && Total(s) == |s| && CrcGood(s)
  }

  predicate AllValid(ss: seq<seq<byte>>) {
    forall i :: 0 <= i < |ss| ==> Valid(ss[i])
  }

  function Concat(ss: seq<seq<byte>>): seq<byte> {
    if ss == [] then [] else ss[0] + Concat(ss[1..])
  }

  /** data is the front of content, or all of it and then stuffing. */
  predicate Fills(data: seq<byte>, content: seq<byte>) {
    if |data| < |content| then data == content[..|data|]
    else data[..|content|] == content && Stuffing(data[|content|..])
  }

  function Left(data: seq<byte>, content: seq<byte>): seq<byte> {
    if |data| < |content| then content[|data|..] else []
  }

  /**
    One packet id. tail is what is still to be sent of the section current;
    started, intact and lost say what the receiver has seen: a section start,
    every byte so far of current, and how many packets since went missing.
    begun lists the sections sent so far and got those that arrived whole.
  */
  datatype Line = Line(
    current: seq<byte>, tail: seq<byte>, cc: nat,
    started: bool, intact: bool, lost: nat,
    begun: seq<seq<byte>>, got: seq<seq<byte>>)
  {
    predicate Synced() { started && intact && lost == 0 }
  }

  function Data(ss: seq<seq<byte>>, payload: seq<byte>): seq<byte>
    requires |payload| >= 1
  {
    if ss == [] then payload else payload[1..]
  }

  function Rest(l: Line, ss: seq<seq<byte>>, payload: seq<byte>): seq<byte>
    requires |payload| >= 1
  {
    Left(Data(ss, payload), l.tail + Concat(ss))
  }

  /**
    The payload ends the section in flight and begins the sections ss. A packet
    that begins any has the start flag and a pointer past the section in flight.
  */
  predicate Carries(l: Line, ss: seq<seq<byte>>, starts: bool, payload: seq<byte>) {
    && |payload| >= 1 && AllValid(ss)
    && starts == (ss != [])
    && Fills(Data(ss, payload), l.tail + Concat(ss))
    && if ss == [] then l.tail != []
       else payload[0] == |l.tail| && |Rest(l, ss, payload)| < |ss[|ss| - 1]|
  }

  /** The sections a received packet completes. */
  function Completes(l: Line, ss: seq<seq<byte>>, payload: seq<byte>): seq<seq<byte>>
    requires |payload| >= 1
  {
    (if l.Synced() && l.tail != [] && |Data(ss, payload)| >= |l.tail| then [l.current] else []) +
    (if ss == [] || Rest(l, ss, payload) == [] then ss else ss[..|ss| - 1])
  }

  function AfterFresh(l: Line, ss: seq<seq<byte>>, payload: seq<byte>): Line
    requires |payload| >= 1
  {
    var rest := Rest(l, ss, payload);
    Line(if ss == [] then l.current else ss[|ss| - 1], rest, (l.cc + 1) % 16,
         l.started || ss != [], ss != [] || rest == [] || l.Synced(), 0,
         l.begun + ss, l.got + Completes(l, ss, payload))
  }

  function AfterLost(l: Line, ss: seq<seq<byte>>, payload: seq<byte>): Line
    requires |payload| >= 1
  {
    Line(if ss == [] then l.current else ss[|ss| - 1], Rest(l, ss, payload), (l.cc + 1) % 16,
         l.started, l.intact, if l.started then l.lost + 1 else 0, l.begun + ss, l.got)
  }

  /** What the receiver holds for a line. */
  ghost predicate Holds(l: Line, a: Option<Assembly>) {
    && (l.started <==> a.Some?)
    && l.cc < 16
    && (a.Some? ==>
          && a.value.cc < 16 && l.lost <= 14 && l.cc == (a.value.cc + l.lost) % 16
          && (l.lost == 0 ==>
                if !l.intact then a.value.buf == []
                else if l.tail == [] then Stuffing(a.value.buf) && |a.value.buf| < 3
                else a.value.buf != [] && a.value.buf + l.tail == l.current && Valid(l.current)))
  }

  // ----- what draining does to such data -----

  lemma DrainValid(s: seq<byte>, rest: seq<byte>)
    requires Valid(s)
    ensures Drain(s + rest) == ([s] + Drain(rest).0, Drain(rest).1)
  {
    hide CrcGood, Drain;
    assert (s + rest)[..|s|] == s && (s + rest)[|s|..] == rest;
    DrainStep(s + rest);
  }

  lemma DrainPart(p: seq<byte>, s: seq<byte>)
    requires Valid(s) && |p| < |s| && p == s[..|p|]
    ensures Drain(p) == ([], p)
  {
    hide CrcGood, Drain;
    if |p| >= 3 { DrainStep(p); } else { ShortDrain(p); }
  }

  lemma DrainStuffing(p: seq<byte>)
    requires Stuffing(p)
    ensures Drain(p).0 == [] && Stuffing(Drain(p).1) && |Drain(p).1| < 3
  {
    hide Drain;
    if |p| >= 3 { DrainStep(p); } else { ShortDrain(p); }
  }

  /** A section that ends here, and stuffing after it. */
  lemma DrainEnd(buf: seq<byte>, tail: seq<byte>, s: seq<byte>, data: seq<byte>)
    requires Valid(s) && buf + tail == s && buf != [] && tail != [] && Fills(data, tail)
    ensures |data| < |tail| ==> Drain(buf + data) == ([], buf + data) && buf + data + Left(data, tail) == s
    ensures |data| >= |tail| ==> Drain(buf + data).0 == [s] && Stuffing(Drain(buf + data).1) && |Drain(buf + data).1| < 3
  {
    hide Drain, Valid;
    if |data| < |tail| {
      assert buf + data == s[..|buf + data|];
      DrainPart(buf + data, s);
    } else {
      var stuff := data[|tail|..];
      assert buf + data == s + stuff;
      DrainValid(s, stuff);
      DrainStuffing(stuff);
      assert [s] + [] == [s];
    }
  }

  /** Sections from the start of the data, the last one perhaps cut. */
  lemma {:induction false} DrainFilled(ss: seq<seq<byte>>, data: seq<byte>)
    requires ss != [] && AllValid(ss) && Fills(data, Concat(ss))
    requires |Left(data, Concat(ss))| < |ss[|ss| - 1]|
    ensures var left, last := Left(data, Concat(ss)), ss[|ss| - 1];
            var (bodies, buf) := Drain(data);
            if left == [] then bodies == ss && Stuffing(buf) && |buf| < 3
            else bodies == ss[..|ss| - 1] && buf != [] && buf + left == last
  {
    hide Drain, CrcGood;
    var s, more := ss[0], ss[1..];
    if more == [] {
      OneConcat(ss);
      if |data| < |s| {
        DrainPart(data, s);
        assert ss[..0] == [];
      } else {
        var stuff := data[|s|..];
        assert data == s + stuff;
        DrainValid(s, stuff);
        DrainStuffing(stuff);
        assert [s] + [] == ss;
      }
    } else {
      var content := Concat(ss);
      LastInConcat(more);
      assert |data| >= |s|;
      assert content[..|s|] == s && content[|s|..] == Concat(more);
      var tail := data[|s|..];
      assert data == s + tail by {
        assert data[..|s|] == content[..|s|];
      }
      FillsTail(data, content, |s|);
      DrainValid(s, tail);
      DrainFilled(more, tail);
      assert [s] + more == ss && [s] + more[..|more| - 1] == ss[..|ss| - 1];
    }
  }

  lemma OneConcat(ss: seq<seq<byte>>)
    requires |ss| == 1
    ensures Concat(ss) == ss[0]
  {
    assert ss[1..] == [];
    assert ss[0] + [] == ss[0];
  }

  lemma {:induction false} LastInConcat(ss: seq<seq<byte>>)
    requires ss != []
    ensures |Concat(ss)| >= |ss[|ss| - 1]|
  {
    if |ss| > 1 { LastInConcat(ss[1..]); }
  }

  lemma FillsTail(data: seq<byte>, content: seq<byte>, k: nat)
    requires Fills(data, content) && k <= |data| && k <= |content|
    ensures Fills(data[k..], content[k..]) && Left(data[k..], content[k..]) == Left(data, content)
    ensures data[..k] == content[..k]
  {
    if |data| < |content| {
      assert data[k..] == content[k..][..|data| - k];
    } else {
      assert data[k..][..|content| - k] == content[k..];
      assert data[k..][|content| - k..] == data[|content|..];
    }
  }

  // ----- one packet -----

  lemma CountersTell(a: nat, lost: nat)
    requires a < 16 && lost <= 14
    ensures ((a + lost) % 16 + 1) % 16 != a
    ensures ((a + lost) % 16 + 1) % 16 == (a + 1) % 16 <==> lost == 0
  {
  }

  /** The assembly's bytes as the receiver uses them for the next packet of the line. */
  function Usable(a: Option<Assembly>, cc: nat): seq<byte> {
    if a.Some? && cc == (a.value.cc + 1) % 16 then a.value.buf else []
  }

  lemma UsableBytes(l: Line, a: Option<Assembly>)
    requires Holds(l, a)
    ensures a.Some? ==> (l.cc + 1) % 16 != a.value.cc
    ensures var buf := Usable(a, (l.cc + 1) % 16);
            if !l.Synced() then buf == []
            else if l.tail == [] then Stuffing(buf) && |buf| < 3
            else buf != [] && buf + l.tail == l.current && Valid(l.current)
  {
    if a.Some? { CountersTell(a.value.cc, l.lost); }
  }

  lemma TakeContinues(l: Line, a: Option<Assembly>, payload: seq<byte>)
    requires Holds(l, a) && Carries(l, [], false, payload)
    ensures var (b, bodies) := Take(a, (l.cc + 1) % 16, false, payload);
            bodies == Completes(l, [], payload) && Holds(AfterFresh(l, [], payload), b)
  {
    hide Drain, Valid;
    UsableBytes(l, a);
    assert l.tail + Concat([]) == l.tail;
    var buf := Usable(a, (l.cc + 1) % 16);
    if l.Synced() {
      DrainEnd(buf, l.tail, l.current, payload);
      assert [l.current] + [] == [l.current];
    }
  }

  lemma TakeStarts(l: Line, a: Option<Assembly>, ss: seq<seq<byte>>, payload: seq<byte>)
    requires Holds(l, a) && ss != [] && Carries(l, ss, true, payload)
    ensures var (b, bodies) := Take(a, (l.cc + 1) % 16, true, payload);
            bodies == Completes(l, ss, payload) && Holds(AfterFresh(l, ss, payload), b)
  {
    hide Drain, Valid, Stuffing, Fills, Concat, Holds, Rest, Take, AllValid;
    var p, cc := |l.tail|, (l.cc + 1) % 16;
    UsableBytes(l, a);
    StartSplits(l, ss, payload);
    assert payload[0] == p && |Rest(l, ss, payload)| < |ss[|ss| - 1]| && AllValid(ss);
    hide Carries;
    EndOfFlight(l, Usable(a, cc), payload[1..1 + p]);
    TakeAtStart(a, cc, payload);
    DrainFilled(ss, payload[1 + p..]);
    LastValid(ss);
    HoldsStarted(l, ss, payload, Drain(payload[1 + p..]).1);
  }

  lemma TakeAtStart(a: Option<Assembly>, cc: nat, payload: seq<byte>)
    requires |payload| >= 1 && 1 + payload[0] <= |payload| && (a.Some? ==> cc != a.value.cc)
    ensures var pointer, buf := payload[0], Usable(a, cc);
            var first := if buf != [] then Drain(buf + payload[1..1 + pointer]).0 else [];
            var rest := Drain(payload[1 + pointer..]);
            Take(a, cc, true, payload) == (Some(Assembly(rest.1, cc)), first + rest.0)
  {
    hide Drain;
  }

  lemma HoldsStarted(l: Line, ss: seq<seq<byte>>, payload: seq<byte>, left: seq<byte>)
    requires ss != [] && |payload| >= 1 && Valid(ss[|ss| - 1])
    requires if Rest(l, ss, payload) == [] then Stuffing(left) && |left| < 3
             else left != [] && left + Rest(l, ss, payload) == ss[|ss| - 1]
    ensures Holds(AfterFresh(l, ss, payload), Some(Assembly(left, (l.cc + 1) % 16)))
  {
    hide Valid, Stuffing, Rest;
  }

  /** The pointer divides a starting payload between the section in flight and the new ones. */
  lemma StartSplits(l: Line, ss: seq<seq<byte>>, payload: seq<byte>)
    requires ss != [] && Carries(l, ss, true, payload)
    ensures var p := |l.tail|;
            && 1 + p <= |payload| && payload[1..1 + p] == l.tail
            && Fills(payload[1 + p..], Concat(ss))
            && Left(payload[1 + p..], Concat(ss)) == Rest(l, ss, payload)
  {
    hide Valid, Stuffing, Concat, Fills;
    var data, content, p := payload[1..], l.tail + Concat(ss), |l.tail|;
    LastInConcat(ss);
    FillsTail(data, content, p);
    assert content[p..] == Concat(ss) && content[..p] == l.tail;
    assert payload[1..1 + p] == data[..p] && payload[1 + p..] == data[p..];
  }

  lemma EndOfFlight(l: Line, buf: seq<byte>, tail: seq<byte>)
    requires tail == l.tail
    requires if !l.Synced() then buf == []
             else if l.tail == [] then Stuffing(buf) && |buf| < 3
             else buf != [] && buf + l.tail == l.current && Valid(l.current)
    ensures (if buf != [] then Drain(buf + tail).0 else []) == if l.Synced() && tail != [] then [l.current] else []
  {
    hide Drain, Valid;
    if l.Synced() && tail != [] {
      DrainEnd(buf, tail, l.current, tail);
    } else if l.Synced() {
      assert buf + tail == buf;
      DrainStuffing(buf);
    }
  }

  lemma LastValid(ss: seq<seq<byte>>)
    requires ss != [] && AllValid(ss)
    ensures Valid(ss[|ss| - 1])
  {
  }

  // ----- the multiplexed stream -----

  /**
    What the sender does and what becomes of it: a packet the receiver ignores,
    a fresh packet, a repeated packet, or a fresh packet that is lost.
  */
  datatype Sent =
    | Noise(pkt: seq<byte>)
    | Fresh(pid: nat, ss: seq<seq<byte>>, pkt: seq<byte>)
    | Again(pid: nat, pkt: seq<byte>)
    | Missing(pid: nat, ss: seq<seq<byte>>, pkt: seq<byte>)

  type Mux = m: map<nat, Line> | m.Keys == PIDS
    witness map pid | pid in PIDS :: Line([], [], 0, false, false, 0, [], [])

  predicate OnLine(m: Mux, pid: nat, pkt: seq<byte>) {
    pid in PIDS && IsPacket(pkt) && Useful(pkt) && Pid(pkt) == pid
  }

  predicate Legal(m: Mux, s: Sent) {
    match s
    case Noise(pkt) => IsPacket(pkt) && !Useful(pkt)
    case Fresh(pid, ss, pkt) =>
      && OnLine(m, pid, pkt) && Counter(pkt) == (m[pid].cc + 1) % 16
      && Carries(m[pid], ss, StartsUnit(pkt), Payload(pkt))
    case Again(pid, pkt) =>
      && OnLine(m, pid, pkt) && Counter(pkt) == m[pid].cc
      && (if m[pid].started then m[pid].lost == 0 else !StartsUnit(pkt))
    case Missing(pid, ss, pkt) =>
      && OnLine(m, pid, pkt) && Counter(pkt) == (m[pid].cc + 1) % 16
      && Carries(m[pid], ss, StartsUnit(pkt), Payload(pkt))
      && (m[pid].started ==> m[pid].lost < 14)
  }

  function Next(m: Mux, s: Sent): Mux
    requires Legal(m, s)
  {
    match s
    case Fresh(pid, ss, pkt) => m[pid := AfterFresh(m[pid], ss, Payload(pkt))]
    case Missing(pid, ss, pkt) => m[pid := AfterLost(m[pid], ss, Payload(pkt))]
    case _ => m
  }

  /** Nothing is known of the receiver yet; a section may be in flight. */
  predicate Joining(m: Mux) {
    forall pid :: pid in PIDS ==> !m[pid].started && m[pid].begun == [] && m[pid].got == [] && m[pid].cc < 16
  }

  predicate LegalRun(m: Mux, run: seq<Sent>)
    decreases |run|, 0
  {
    run == [] || (LegalRun(m, run[..|run| - 1]) && Legal(After(m, run[..|run| - 1]), run[|run| - 1]))
  }

  function After(m: Mux, run: seq<Sent>): Mux
    requires LegalRun(m, run)
    decreases |run|, 1
  {
    if run == [] then m else Next(After(m, run[..|run| - 1]), run[|run| - 1])
  }

  function Arrived(run: seq<Sent>): seq<seq<byte>> {
    if run == [] then []
    else
      var before := Arrived(run[..|run| - 1]);
      if run[|run| - 1].Missing? then before else before + [run[|run| - 1].pkt]
  }

  function Bodies(out: seq<Section>, pid: nat): seq<seq<byte>> {
    if out == [] then []
    else
      var before := Bodies(out[..|out| - 1], pid);
      if out[|out| - 1].pid == pid then before + [out[|out| - 1].body] else before
  }

  lemma {:induction false} BodiesAppend(out: seq<Section>, pid: nat, bodies: seq<seq<byte>>, other: nat)
    ensures Bodies(out + Tagged(pid, bodies), other) == Bodies(out, other) + (if other == pid then bodies else [])
  {
    if bodies == [] {
      assert out + Tagged(pid, bodies) == out;
      assert Bodies(out, other) + [] == Bodies(out, other);
    } else {
      var n := |bodies| - 1;
      BodiesAppend(out, pid, bodies[..n], other);
      var all := out + Tagged(pid, bodies);
      assert all[..|all| - 1] == out + Tagged(pid, bodies[..n]);
      assert bodies == bodies[..n] + [bodies[n]];
      assert Bodies(out, other) + (bodies[..n] + [bodies[n]]) == Bodies(out, other) + bodies[..n] + [bodies[n]];
    }
  }

  ghost predicate InStep(m: Mux, st: State) {
    forall pid :: pid in PIDS ==> Holds(m[pid], st.Held(pid)) && Bodies(st.out, pid) == m[pid].got
  }

  lemma ReceiveOne(m: Mux, st: State, s: Sent)
    requires InStep(m, st) && Legal(m, s) && !s.Missing?
    ensures InStep(Next(m, s), Receive(st, s.pkt))
  {
    hide Take, Bodies, Holds, Carries, AfterFresh, Completes, Tagged;
    if s.Noise? {
    } else {
      var pid, pkt := s.pid, s.pkt;
      var (a, bodies) := Take(st.Held(pid), Counter(pkt), StartsUnit(pkt), Payload(pkt));
      TakeOne(m, st, s);
      forall other | other in PIDS
        ensures Holds(Next(m, s)[other], st.Put(pid, a, bodies).Held(other))
        ensures Bodies(st.Put(pid, a, bodies).out, other) == Next(m, s)[other].got
      {
        BodiesAppend(st.out, pid, bodies, other);
      }
    }
  }

  lemma TakeOne(m: Mux, st: State, s: Sent)
    requires InStep(m, st) && Legal(m, s) && !s.Missing? && !s.Noise?
    ensures var (a, bodies) := Take(st.Held(s.pid), Counter(s.pkt), StartsUnit(s.pkt), Payload(s.pkt));
            Holds(Next(m, s)[s.pid], a) && Next(m, s)[s.pid].got == m[s.pid].got + bodies
  {
    hide Carries, Holds, Take, Completes, Bodies, Useful, StartsUnit, Payload;
    var l, a := m[s.pid], st.Held(s.pid);
    if s.Fresh? {
      CarriesStart(l, s.ss, StartsUnit(s.pkt), Payload(s.pkt));
      if s.ss == [] {
        TakeContinues(l, a, Payload(s.pkt));
      } else {
        TakeStarts(l, a, s.ss, Payload(s.pkt));
      }
    } else {
      TakeAgain(l, a, StartsUnit(s.pkt), Payload(s.pkt));
      assert l.got + [] == l.got;
    }
  }

  lemma TakeAgain(l: Line, a: Option<Assembly>, starts: bool, payload: seq<byte>)
    requires Holds(l, a) && |payload| >= 1
    requires if l.started then l.lost == 0 else !starts
    ensures Take(a, l.cc, starts, payload) == (a, [])
  {
    hide Drain, Valid;
  }

  lemma CarriesStart(l: Line, ss: seq<seq<byte>>, starts: bool, payload: seq<byte>)
    requires Carries(l, ss, starts, payload)
    ensures starts == (ss != [])
  {
  }

  lemma LoseOne(m: Mux, st: State, s: Sent)
    requires InStep(m, st) && Legal(m, s) && s.Missing?
    ensures InStep(Next(m, s), st)
  {
    hide Carries, Drain, Bodies, Useful, Rest;
    var n := Next(m, s);
    forall pid | pid in PIDS ensures Holds(n[pid], st.Held(pid)) && Bodies(st.out, pid) == n[pid].got {
      if pid == s.pid {
        LostHolds(m[pid], s.ss, Payload(s.pkt), st.Held(pid));
      }
    }
  }

  lemma LostHolds(l: Line, ss: seq<seq<byte>>, payload: seq<byte>, a: Option<Assembly>)
    requires Holds(l, a) && |payload| >= 1 && (l.started ==> l.lost < 14)
    ensures Holds(AfterLost(l, ss, payload), a)
  {
    hide Valid, Stuffing, Rest;
  }

  /**
    For every id, what reassembly gave out so far is exactly the sections that
    arrived whole, in order, wherever in the stream the receiver joined.
  */
  lemma {:induction false} WholeSectionsArrive(m: Mux, run: seq<Sent>)
    requires Joining(m) && LegalRun(m, run)
    ensures Packets(Arrived(run))
    ensures InStep(After(m, run), Decode(Arrived(run)))
  {
    hide Legal, Next, Receive, InStep, Decode, Arrived, Packets;
    NothingArrived();
    if run == [] {
      StartInStep(m);
    } else {
      var before, s := run[..|run| - 1], run[|run| - 1];
      WholeSectionsArrive(m, before);
      RunSplits(m, run);
      var raw := Arrived(before);
      if s.Missing? {
        LoseOne(After(m, before), Decode(raw), s);
      } else {
        ReceiveOne(After(m, before), Decode(raw), s);
        LegalPacket(After(m, before), s);
        DecodeAppend(raw, s.pkt);
      }
    }
  }

  lemma NothingArrived()
    ensures Arrived([]) == [] && Packets([])
  {
  }

  lemma RunSplits(m: Mux, run: seq<Sent>)
    requires LegalRun(m, run) && run != []
    ensures var before, s := run[..|run| - 1], run[|run| - 1];
            && LegalRun(m, before) && Legal(After(m, before), s)
            && After(m, run) == Next(After(m, before), s)
            && Arrived(run) == if s.Missing? then Arrived(before) else Arrived(before) + [s.pkt]
  {
    hide Legal, Next;
  }

  lemma DecodeAppend(raw: seq<seq<byte>>, pkt: seq<byte>)
    requires Packets(raw) && IsPacket(pkt)
    ensures Packets(raw + [pkt]) && Decode(raw + [pkt]) == Receive(Decode(raw), pkt)
  {
    hide Receive;
    assert (raw + [pkt])[..|raw|] == raw;
  }

  lemma LegalPacket(m: Mux, s: Sent)
    requires Legal(m, s)
    ensures IsPacket(s.pkt)
  {
  }

  lemma StartInStep(m: Mux)
    requires Joining(m)
    ensures InStep(m, Decode([]))
  {
  }

  ghost predicate NothingLost(run: seq<Sent>) {
    forall i :: 0 <= i < |run| ==> !run[i].Missing?
  }

  /** The section a line is in the middle of sending. */
  function InFlight(l: Line): seq<seq<byte>> {
    if l.begun != [] && l.tail != [] then [l.current] else []
  }

  ghost predicate Complete(l: Line) {
    && (l.begun != [] <==> l.started)
    && (l.started ==> l.intact && l.lost == 0)
    && l.begun == l.got + InFlight(l)
  }

  lemma FreshComplete(l: Line, ss: seq<seq<byte>>, starts: bool, payload: seq<byte>)
    requires Complete(l) && |payload| >= 1 && Carries(l, ss, starts, payload)
    ensures Complete(AfterFresh(l, ss, payload))
  {
    hide Valid, Stuffing, Fills, Left, Concat, Carries;
    var n := AfterFresh(l, ss, payload);
    if ss == [] {
      ContinueSplits(l, payload, starts);
      assert l.begun + [] == l.begun;
    } else {
      CarriesStart(l, ss, starts, payload);
      StartSplits(l, ss, payload);
      var ended := if Rest(l, ss, payload) == [] then ss else ss[..|ss| - 1];
      assert ended + InFlight(n) == ss;
      assert Completes(l, ss, payload) == InFlight(l) + ended;
      Regroup(l.got, InFlight(l), ended, InFlight(n));
    }
  }

  lemma ContinueSplits(l: Line, payload: seq<byte>, starts: bool)
    requires Carries(l, [], starts, payload)
    ensures l.tail != [] && (Rest(l, [], payload) == [] <==> |payload| >= |l.tail|)
  {
    assert l.tail + Concat([]) == l.tail;
  }

  lemma Regroup<T>(a: seq<T>, b: seq<T>, c: seq<T>, d: seq<T>)
    ensures a + b + (c + d) == a + (b + c) + d
  {
  }

  lemma {:induction false} LinesComplete(m: Mux, run: seq<Sent>, pid: nat)
    requires Joining(m) && LegalRun(m, run) && NothingLost(run) && pid in PIDS
    ensures Complete(After(m, run)[pid])
  {
    hide Carries, AfterFresh, Complete;
    if run == [] {
      JoinComplete(m, pid);
    } else {
      var before, s := run[..|run| - 1], run[|run| - 1];
      LinesComplete(m, before, pid);
      if s.Fresh? && s.pid == pid {
        FreshComplete(After(m, before)[pid], s.ss, StartsUnit(s.pkt), Payload(s.pkt));
      }
    }
  }

  lemma JoinComplete(m: Mux, pid: nat)
    requires Joining(m) && pid in PIDS
    ensures Complete(m[pid])
  {
  }

  /**
    Reassembly undoes packetising: with no packet lost, each id's output and
    the section in flight are all the sections begun, in order.
  */
  lemma ReassemblyUndoesPacketising(m: Mux, run: seq<Sent>, pid: nat)
    requires Joining(m) && LegalRun(m, run) && NothingLost(run) && pid in PIDS
    ensures Packets(Arrived(run))
    ensures Bodies(Decode(Arrived(run)).out, pid) + InFlight(After(m, run)[pid]) == After(m, run)[pid].begun
  {
    WholeSectionsArrive(m, run);
    LinesComplete(m, run, pid);
  }

  // ----- with packets lost -----

  /** a is b with some elements left out. */
  ghost predicate Thinned<T(!new)>(a: seq<T>, b: seq<T>) {
    a == [] ||
    (b != [] && (Thinned(a, b[..|b| - 1]) || (a[|a| - 1] == b[|b| - 1] && Thinned(a[..|a| - 1], b[..|b| - 1]))))
  }

  lemma {:induction false} ThinnedMore<T(!new)>(a: seq<T>, b: seq<T>, c: seq<T>)
    requires Thinned(a, b)
    ensures Thinned(a, b + c) && Thinned(a + c, b + c)
  {
    if c == [] {
      assert b + c == b && a + c == a;
    } else {
      var n := |c| - 1;
      ThinnedMore(a, b, c[..n]);
      assert (b + c)[..|b + c| - 1] == b + c[..n] && (a + c)[..|a + c| - 1] == a + c[..n];
    }
  }

  /** The sections begun before the one in flight. */
  function Past(l: Line): seq<seq<byte>> {
    l.begun[..|l.begun| - |InFlight(l)|]
  }

  ghost predicate Faithful(l: Line) {
    && (l.started ==> l.begun != [])
    && (l.begun != [] ==> l.current == l.begun[|l.begun| - 1])
    && Thinned(l.got, Past(l))
  }

  lemma PastAndFlight(l: Line)
    requires Faithful(l)
    ensures l.begun == Past(l) + InFlight(l)
  {
  }

  lemma FreshFaithful(l: Line, ss: seq<seq<byte>>, starts: bool, payload: seq<byte>)
    requires Faithful(l) && |payload| >= 1 && Carries(l, ss, starts, payload)
    ensures Faithful(AfterFresh(l, ss, payload))
  {
    if ss == [] {
      ContinueFaithful(l, starts, payload);
    } else {
      StartFaithful(l, ss, starts, payload);
    }
  }

  lemma ContinueFaithful(l: Line, starts: bool, payload: seq<byte>)
    requires Faithful(l) && |payload| >= 1 && Carries(l, [], starts, payload)
    ensures Faithful(AfterFresh(l, [], payload))
  {
    ContinueSplits(l, payload, starts);
    hide Carries, Thinned, Rest;
    PastAndFlight(l);
    ThinnedMore(l.got, Past(l), InFlight(l));
    var n := AfterFresh(l, [], payload);
    assert n.begun == l.begun;
    if l.Synced() && Rest(l, [], payload) == [] {
      assert n.got == l.got + [l.current];
      assert InFlight(l) == [l.current];
    } else {
      assert n.got == l.got;
    }
  }

  lemma PastOfStart(n: Line, begun: seq<seq<byte>>, ss: seq<seq<byte>>)
    requires ss != [] && n.begun == begun + ss
    ensures Past(n) == begun + (if n.tail == [] then ss else ss[..|ss| - 1])
    ensures n.begun[|n.begun| - 1] == ss[|ss| - 1]
  {
    assert (begun + ss)[..|begun| + |ss| - 1] == begun + ss[..|ss| - 1];
  }

  /** What a starting packet adds to the sections that arrived whole. */
  lemma StartGot(l: Line, ss: seq<seq<byte>>, payload: seq<byte>)
    requires Faithful(l) && |payload| >= 1 && ss != [] && |Data(ss, payload)| >= |l.tail|
    ensures var ended := if Rest(l, ss, payload) == [] then ss else ss[..|ss| - 1];
            var got := AfterFresh(l, ss, payload).got;
            got == l.got + ended || got == l.got + InFlight(l) + ended
  {
    hide Thinned, Rest, Past;
    var ended := if Rest(l, ss, payload) == [] then ss else ss[..|ss| - 1];
    assert l.got + ([] + ended) == l.got + ended;
    assert l.got + ([l.current] + ended) == l.got + [l.current] + ended;
  }

  lemma StartFaithful(l: Line, ss: seq<seq<byte>>, starts: bool, payload: seq<byte>)
    requires Faithful(l) && |payload| >= 1 && ss != [] && Carries(l, ss, starts, payload)
    ensures Faithful(AfterFresh(l, ss, payload))
  {
    CarriesStart(l, ss, starts, payload);
    StartSplits(l, ss, payload);
    StartGot(l, ss, payload);
    hide Carries, Thinned, Rest, Fills, Concat, Left, Completes;
    PastAndFlight(l);
    ThinnedMore(l.got, Past(l), InFlight(l));
    var n := AfterFresh(l, ss, payload);
    var ended := if Rest(l, ss, payload) == [] then ss else ss[..|ss| - 1];
    ThinnedMore(l.got, l.begun, ended);
    ThinnedMore(l.got + InFlight(l), l.begun, ended);
    PastOfStart(n, l.begun, ss);
  }

  lemma LostFaithful(l: Line, ss: seq<seq<byte>>, starts: bool, payload: seq<byte>)
    requires Faithful(l) && |payload| >= 1 && Carries(l, ss, starts, payload)
    ensures Faithful(AfterLost(l, ss, payload))
  {
    hide Valid, Stuffing, Fills, Left, Concat, Carries, Thinned;
    var n := AfterLost(l, ss, payload);
    PastAndFlight(l);
    ThinnedMore(l.got, Past(l), InFlight(l));
    if ss == [] {
      ContinueSplits(l, payload, starts);
      assert l.begun + [] == l.begun;
    } else {
      var ended := if Rest(l, ss, payload) == [] then ss else ss[..|ss| - 1];
      ThinnedMore(l.got, l.begun, ended);
      PastOfStart(n, l.begun, ss);
    }
  }

  lemma {:induction false} LinesFaithful(m: Mux, run: seq<Sent>, pid: nat)
    requires Joining(m) && LegalRun(m, run) && pid in PIDS
    ensures Faithful(After(m, run)[pid])
  {
    hide Carries, AfterFresh, AfterLost, Faithful;
    if run == [] {
      JoinFaithful(m, pid);
    } else {
      var before, s := run[..|run| - 1], run[|run| - 1];
      LinesFaithful(m, before, pid);
      if s.Fresh? && s.pid == pid {
        FreshFaithful(After(m, before)[pid], s.ss, StartsUnit(s.pkt), Payload(s.pkt));
      } else if s.Missing? && s.pid == pid {
        LostFaithful(After(m, before)[pid], s.ss, StartsUnit(s.pkt), Payload(s.pkt));
      }
    }
  }

  lemma JoinFaithful(m: Mux, pid: nat)
    requires Joining(m) && pid in PIDS
    ensures Faithful(m[pid])
  {
  }

  /**
    Whatever is lost, in gaps of at most 14 packets of an id, the output is the
    sections begun with some left out: none is cut short, joined to another,
    repeated or moved.
  */
  lemma LossOnlyDrops(m: Mux, run: seq<Sent>, pid: nat)
    requires Joining(m) && LegalRun(m, run) && pid in PIDS
    ensures Packets(Arrived(run))
    ensures Thinned(Bodies(Decode(Arrived(run)).out, pid), After(m, run)[pid].begun)
  {
    WholeSectionsArrive(m, run);
    LinesFaithful(m, run, pid);
    var l := After(m, run)[pid];
    PastAndFlight(l);
    ThinnedMore(l.got, Past(l), InFlight(l));
  }
}
