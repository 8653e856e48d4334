/** Reassembly of service information sections from transport stream packets. */
module Sections {
  import opened Collections
  import Crc

  type byte = b: int | 0 <= b < 256

  /** The PAT, SDT and EIT packet ids. */
  const PIDS: set<nat> := {0x00, 0x11, 0x12}

  datatype Section = Section(pid: nat, body: seq<byte>)

  /** What one packet id holds; an empty buf stands for none. */
  datatype Assembly = Assembly(buf: seq<byte>, cc: nat)

  function Bits(body: seq<byte>): seq<bv8> {
    seq(|body|, i requires 0 <= i < |body| => body[i] as bv8)
  }

  predicate CrcGood(body: seq<byte>) { Crc.Good(Bits(body)) }

  /** The length a section's header gives, header included. */
  function Total(s: seq<byte>): nat
    requires |s| >= 3
  {
    3 + (s[1] as int % 16) * 256 + s[2] as int
  }

  predicate Stuffing(s: seq<byte>) {
    forall i :: 0 <= i < |s| ==> s[i] == 0xFF
  }

  // ----- taking whole sections off the front of a buffer -----

  /** (the good sections at the front of buf, the bytes still waiting) */
  function Drain(buf: seq<byte>): (r: (seq<seq<byte>>, seq<byte>))
    ensures |r.1| < 4096
    decreases |buf|
  {
    if |buf| < 3 then ([], buf)
    else if buf[0] == 0xFF || Total(buf) < 8 || Total(buf) > 4096 then ([], [])
    else if |buf| < Total(buf) then ([], buf)
    else
      var body := buf[..Total(buf)];
      var (bodies, left) := Drain(buf[Total(buf)..]);
      (if CrcGood(body) then [body] + bodies else bodies, left)
  }

  method AppendDone(out0: seq<Section>, pid: nat, buf0: seq<byte>) returns (out: seq<Section>, buf: seq<byte>)
    ensures out == out0 + Tagged(pid, Drain(buf0).0)
    ensures buf == Drain(buf0).1
  {
    hide Drain, Tagged, Bits, Crc.Good;
    out, buf := out0, buf0;
    ghost var got: seq<seq<byte>> := [];
    TaggedConcat(pid, [], []);
    while |buf| >= 3
      invariant out == out0 + Tagged(pid, got)
      invariant got + Drain(buf).0 == Drain(buf0).0
      invariant Drain(buf).1 == Drain(buf0).1
      decreases |buf|
    {
      DrainStep(buf);
      if buf[0] == 0xFF {
        assert got + [] == got;
        return out, [];
      }
      var length := (buf[1] as int % 16) * 256 + buf[2] as int;
      var total := 3 + length;
      if length < 5 || total > 4096 {
        assert got + [] == got;
        return out, [];
      }
      if |buf| < total {
        assert got + [] == got;
        return;
      }
      var body := buf[..total];
      ghost var later := Drain(buf[total..]).0;
      var ok := Crc.CrcOk(Bits(body));
      if ok {
        TaggedConcat(pid, got, [body]);
        assert got + ([body] + later) == got + [body] + later;
        assert out0 + (Tagged(pid, got) + [Section(pid, body)]) == out + [Section(pid, body)];
        out := out + [Section(pid, body)];
        got := got + [body];
      }
      buf := buf[total..];
    }
    ShortDrain(buf);
    assert got + [] == got;
  }

  lemma ShortDrain(buf: seq<byte>)
    requires |buf| < 3
    ensures Drain(buf) == ([], buf)
  {
  }

  lemma DrainStep(buf: seq<byte>)
    requires |buf| >= 3
    ensures buf[0] == 0xFF || Total(buf) < 8 || Total(buf) > 4096 ==> Drain(buf) == ([], [])
    ensures buf[0] != 0xFF && 8 <= Total(buf) <= 4096 && |buf| < Total(buf) ==> Drain(buf) == ([], buf)
    ensures buf[0] != 0xFF && 8 <= Total(buf) <= 4096 && |buf| >= Total(buf) ==>
              var body, rest := buf[..Total(buf)], Drain(buf[Total(buf)..]);
              Drain(buf) == (if CrcGood(body) then [body] + rest.0 else rest.0, rest.1)
  {
    hide CrcGood;
  }

  function Tagged(pid: nat, bodies: seq<seq<byte>>): (r: seq<Section>)
    ensures |r| == |bodies| && forall i :: 0 <= i < |r| ==> r[i] == Section(pid, bodies[i])
  {
    seq(|bodies|, i requires 0 <= i < |bodies| => Section(pid, bodies[i]))
  }

  lemma TaggedConcat(pid: nat, a: seq<seq<byte>>, b: seq<seq<byte>>)
    ensures Tagged(pid, a + b) == Tagged(pid, a) + Tagged(pid, b)
    ensures |b| == 1 ==> Tagged(pid, b) == [Section(pid, b[0])]
    ensures Tagged(pid, []) == []
  {
  }

  // ----- one packet -----

  predicate IsPacket(pkt: seq<byte>) { |pkt| == 188 }

  function Pid(pkt: seq<byte>): nat requires IsPacket(pkt) { (pkt[1] as int % 32) * 256 + pkt[2] as int }

  function Counter(pkt: seq<byte>): nat requires IsPacket(pkt) { pkt[3] % 16 }

  predicate StartsUnit(pkt: seq<byte>) requires IsPacket(pkt) { (pkt[1] / 64) % 2 == 1 }

  function Offset(pkt: seq<byte>): nat requires IsPacket(pkt) {
    if (pkt[3] / 32) % 2 == 1 then 5 + pkt[4] as int else 4
  }

  /** A packet without transport error, on a wanted id, with a payload. */
  predicate Useful(pkt: seq<byte>)
    requires IsPacket(pkt)
  {
    pkt[1] < 128 && Pid(pkt) in PIDS && (pkt[3] / 16) % 2 == 1 && Offset(pkt) < 188
  }

  function Payload(pkt: seq<byte>): (p: seq<byte>)
    requires IsPacket(pkt) && Useful(pkt)
    ensures |p| >= 1
  {
    pkt[Offset(pkt)..]
  }

  /** What one useful packet does to its id's assembly, and the sections it completes. */
  function Take(a: Option<Assembly>, cc: nat, starts: bool, payload: seq<byte>): (r: (Option<Assembly>, seq<seq<byte>>))
    requires |payload| >= 1
  {
    if a.Some? && cc == a.value.cc then (a, [])
    else
      var buf := if a.Some? && cc == (a.value.cc + 1) % 16 then a.value.buf else [];
      if starts then
        var pointer := payload[0];
        if 1 + pointer > |payload| then (None, [])
        else
          var first := if buf != [] then Drain(buf + payload[1..1 + pointer]).0 else [];
          var (bodies, left) := Drain(payload[1 + pointer..]);
          (Some(Assembly(left, cc)), first + bodies)
      else if buf == [] then
        (if a.Some? then Some(Assembly([], cc)) else None, [])
      else
        var (bodies, left) := Drain(buf + payload);
        (Some(Assembly(left, cc)), bodies)
  }

  datatype State = State(open: map<nat, Assembly>, out: seq<Section>) {
    function Held(pid: nat): Option<Assembly> {
      if pid in open then Some(open[pid]) else None
    }

    function Put(pid: nat, a: Option<Assembly>, bodies: seq<seq<byte>>): State {
      State(if a.Some? then open[pid := a.value] else open - {pid}, out + Tagged(pid, bodies))
    }
  }

  function Receive(st: State, pkt: seq<byte>): State
    requires IsPacket(pkt)
  {
    if !Useful(pkt) then st
    else
      var (a, bodies) := Take(st.Held(Pid(pkt)), Counter(pkt), StartsUnit(pkt), Payload(pkt));
      st.Put(Pid(pkt), a, bodies)
  }

  predicate Packets(raw: seq<seq<byte>>) {
    forall i :: 0 <= i < |raw| ==> IsPacket(raw[i])
  }

  function Decode(raw: seq<seq<byte>>): State
    requires Packets(raw)
  {
    if raw == [] then State(map[], []) else Receive(Decode(raw[..|raw| - 1]), raw[|raw| - 1])
  }

  /** Reassembles every section of the wanted ids. */
  method Reassemble(raw: seq<seq<byte>>) returns (out: seq<Section>)
    requires Packets(raw)
    ensures out == Decode(raw).out
  {
    hide Drain, Decode;
    var open: map<nat, Assembly> := map[];
    out := [];
    DecodeSteps(raw, 0);
    for i := 0 to |raw|
      invariant State(open, out) == Decode(raw[..i])
    {
      DecodeSteps(raw, i);
      var pkt := raw[i];
      ghost var st := State(open, out);
      if pkt[1] >= 128 {
        continue;
      }
      var pid := (pkt[1] as int % 32) * 256 + pkt[2] as int;
      if pid !in PIDS {
        continue;
      }
      if (pkt[3] / 16) % 2 == 0 {
        continue;
      }
      var cc := pkt[3] % 16;
      var off := 4;
      if (pkt[3] / 32) % 2 == 1 {
        off := 5 + pkt[4] as int;
        if off >= 188 {
          continue;
        }
      }
      var payload := pkt[off..];
      var starts := (pkt[1] / 64) % 2 == 1;
      assert payload == Payload(pkt);
      open, out := Accept(open, out, pid, cc, starts, payload);
    }
    assert raw[..|raw|] == raw;
  }

  lemma DecodeSteps(raw: seq<seq<byte>>, i: nat)
    requires Packets(raw) && i <= |raw|
    ensures Decode(raw[..0]) == State(map[], [])
    ensures i < |raw| ==> Decode(raw[..i + 1]) == Receive(Decode(raw[..i]), raw[i])
  {
    if i < |raw| { assert raw[..i + 1][..i] == raw[..i]; }
  }

  /** The bytes up to the pointer end the section waiting in buf; the rest begins a new one. */
  method AcceptStart(out0: seq<Section>, pid: nat, buf: seq<byte>, payload: seq<byte>)
    returns (out: seq<Section>, left: seq<byte>)
    requires |payload| >= 1 && 1 + payload[0] as int <= |payload|
    ensures var pointer := payload[0];
            var first := if buf != [] then Drain(buf + payload[1..1 + pointer]).0 else [];
            var (bodies, rest) := Drain(payload[1 + pointer..]);
            out == out0 + Tagged(pid, first + bodies) && left == rest
  {
    hide Drain;
    out := out0;
    var pointer := payload[0];
    ghost var first: seq<seq<byte>> := [];
    if buf != [] {
      first := Drain(buf + payload[1..1 + pointer]).0;
      var dropped;
      out, dropped := AppendDone(out, pid, buf + payload[1..1 + pointer]);
    }
    assert out == out0 + Tagged(pid, first);
    ghost var bodies := Drain(payload[1 + pointer..]).0;
    out, left := AppendDone(out, pid, payload[1 + pointer..]);
    TaggedConcat(pid, first, bodies);
    assert out0 + Tagged(pid, first) + Tagged(pid, bodies) == out0 + (Tagged(pid, first) + Tagged(pid, bodies));
  }

  method Accept(open0: map<nat, Assembly>, out0: seq<Section>, pid: nat, cc: nat, starts: bool, payload: seq<byte>)
    returns (open: map<nat, Assembly>, out: seq<Section>)
    requires |payload| >= 1
    ensures var st := State(open0, out0);
            var (a, bodies) := Take(st.Held(pid), cc, starts, payload);
            State(open, out) == st.Put(pid, a, bodies)
  {
    hide Drain;
    open, out := open0, out0;
    var held := pid in open;
    var buf: seq<byte> := [];
    if held {
      if cc == open[pid].cc {
        assert open[pid := open[pid]] == open;
        assert out + Tagged(pid, []) == out;
        return;
      }
      if cc == (open[pid].cc + 1) % 16 {
        buf := open[pid].buf;
      }
    }
    if starts {
      var pointer := payload[0];
      if 1 + pointer > |payload| {
        open := open - {pid};
        assert out + Tagged(pid, []) == out;
        return;
      }
      out, buf := AcceptStart(out, pid, buf, payload);
      open := open[pid := Assembly(buf, cc)];
      return;
    }
    if buf == [] {
      if held {
        open := open[pid := Assembly([], cc)];
      }
      assert !held ==> open - {pid} == open;
      assert out + Tagged(pid, []) == out;
      return;
    }
    out, buf := AppendDone(out, pid, buf + payload);
    open := open[pid := Assembly(buf, cc)];
  }

  /** No packet, however broken, leaves a section-sized buffer or more behind. */
  lemma {:induction false} HeldIsBounded(raw: seq<seq<byte>>, pid: nat)
    requires Packets(raw) && pid in Decode(raw).open
    ensures |Decode(raw).open[pid].buf| < 4096
  {
    hide Drain;
    var before := raw[..|raw| - 1];
    if pid in Decode(before).open {
      HeldIsBounded(before, pid);
    }
  }
}
