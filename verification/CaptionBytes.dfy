/** Caption bytes carried in H.264: cc_data in SEI messages in escaped units between start codes. */
module CaptionBytes {
  import opened Captions608

  type Bytes = seq<Byte>

  // ----- emulation prevention, section 7.4.1.1 of ITU-T H.264 -----

  /** The loop of the unescaper: zeros is how many zero bytes it kept last. */
  function Unescaped(b: Bytes, zeros: nat): Bytes {
    if b == [] then []
    else if zeros >= 2 && b[0] == 3 then Unescaped(b[1..], 0)
    else [b[0]] + Unescaped(b[1..], if b[0] == 0 then zeros + 1 else 0)
  }

  /** The sender puts a 3 between two zero bytes and a byte of at most 3. */
  function Escaped(b: Bytes, zeros: nat): Bytes {
    if b == [] then []
    else if zeros >= 2 && b[0] <= 3 then [3, b[0]] + Escaped(b[1..], if b[0] == 0 then 1 else 0)
    else [b[0]] + Escaped(b[1..], if b[0] == 0 then zeros + 1 else 0)
  }

  predicate At(b: Bytes, i: nat, x: Byte, y: Byte, z: Byte) {
    i + 2 < |b| && b[i] == x && b[i + 1] == y && b[i + 2] == z
  }

  predicate Contains(b: Bytes, x: Byte, y: Byte, z: Byte) {
    exists i: nat :: i < |b| && At(b, i, x, y, z)
  }

  /** No escape to drop: the unescaper's fast path. */
  lemma {:induction false} NothingToUnescape(b: Bytes, zeros: nat)
    requires !Contains(b, 0, 0, 3)
    requires zeros >= 1 ==> b == [] || zeros < 2 || b[0] != 3
    requires zeros >= 1 && |b| >= 2 ==> !(b[0] == 0 && b[1] == 3)
    ensures Unescaped(b, zeros) == b
  {
    if b != [] {
      var rest := b[1..];
      forall i: nat | i < |rest| ensures !At(rest, i, 0, 0, 3) {
        assert !At(b, i + 1, 0, 0, 3);
      }
      assert !At(b, 0, 0, 0, 3);
      NothingToUnescape(rest, if b[0] == 0 then zeros + 1 else 0);
    }
  }

  lemma UnescapedNext(out: Bytes, b: Bytes, zeros: nat)
    requires b != []
    ensures out + Unescaped(b, zeros) ==
      if zeros >= 2 && b[0] == 3 then out + Unescaped(b[1..], 0)
      else (out + [b[0]]) + Unescaped(b[1..], if b[0] == 0 then zeros + 1 else 0)
  {
  }

  method Unescape(b: Bytes) returns (out: Bytes)
    ensures out == Unescaped(b, 0)
  {
    if !Contains(b, 0, 0, 3) {
      NothingToUnescape(b, 0);
      return b;
    }
    out := [];
    var zeros := 0;
    for i := 0 to |b|
      invariant zeros >= 0 && out + Unescaped(b[i..], zeros) == Unescaped(b, 0)
    {
      var c := b[i];
      assert b[i..][0] == c && b[i..][1..] == b[i + 1..];
      UnescapedNext(out, b[i..], zeros);
      hide Unescaped;
      if zeros >= 2 && c == 3 {
        zeros := 0;
        continue;
      }
      if c == 0 {
        zeros := zeros + 1;
      } else {
        zeros := 0;
      }
      out := out + [c];
    }
    assert out + [] == out;
  }

  /** Unescaping gives back what was escaped, whatever the bytes. */
  lemma {:induction false} UnescapeUndoesEscape(b: Bytes, zeros: nat)
    ensures Unescaped(Escaped(b, zeros), zeros) == b
  {
    if b != [] {
      var e := Escaped(b, zeros);
      if zeros >= 2 && b[0] <= 3 {
        var next := if b[0] == 0 then 1 else 0;
        UnescapeUndoesEscape(b[1..], next);
        assert e[1..] == [b[0]] + Escaped(b[1..], next);
        assert e[1..][1..] == Escaped(b[1..], next);
      } else {
        UnescapeUndoesEscape(b[1..], if b[0] == 0 then zeros + 1 else 0);
        assert e[1..] == Escaped(b[1..], if b[0] == 0 then zeros + 1 else 0);
      }
    }
  }

  // ----- start codes -----

  /** No start code (two zero bytes and a 1) in b, which follows zeros zero bytes. */
  predicate Clean(b: Bytes, zeros: nat) {
    b == [] || (!(zeros >= 2 && b[0] == 1) && Clean(b[1..], if b[0] == 0 then zeros + 1 else 0))
  }

  lemma {:induction false} EscapedIsClean(b: Bytes, zeros: nat)
    ensures Clean(Escaped(b, zeros), zeros)
  {
    if b != [] {
      var e := Escaped(b, zeros);
      if zeros >= 2 && b[0] <= 3 {
        var next := if b[0] == 0 then 1 else 0;
        EscapedIsClean(b[1..], next);
        assert e[1..] == [b[0]] + Escaped(b[1..], next);
        assert e[1..][1..] == Escaped(b[1..], next);
      } else {
        EscapedIsClean(b[1..], if b[0] == 0 then zeros + 1 else 0);
        assert e[1..] == Escaped(b[1..], if b[0] == 0 then zeros + 1 else 0);
      }
    }
  }

  /** Where the first start code is, or -1. */
  function StartCode(b: Bytes): (i: int)
    ensures -1 <= i < |b|
    ensures i >= 0 ==> At(b, i, 0, 0, 1)
    ensures forall j: nat :: j < (if i < 0 then |b| else i) ==> !At(b, j, 0, 0, 1)
  {
    if |b| < 3 then -1
    else if At(b, 0, 0, 0, 1) then 0
    else
      var i := StartCode(b[1..]);
      assert forall j: nat :: 0 < j < |b| ==> At(b, j, 0, 0, 1) == At(b[1..], j - 1, 0, 0, 1);
      if i < 0 then -1 else i + 1
  }

  lemma {:induction false} CleanHasNoCode(b: Bytes, zeros: nat, i: nat)
    requires Clean(b, zeros)
    ensures !At(b, i, 0, 0, 1)
    ensures zeros >= 1 ==> !(|b| >= 2 && b[0] == 0 && b[1] == 1)
  {
    if |b| > 1 {
      if i == 0 {
        if b[0] == 0 {
          CleanHasNoCode(b[1..], zeros + 1, 0);
        }
      } else {
        CleanHasNoCode(b[1..], if b[0] == 0 then zeros + 1 else 0, i - 1);
      }
    }
  }

  const START_CODE: Bytes := [0, 0, 1]

  /** A unit without start codes ends where the next start code begins. */
  lemma UnitEnds(unit: Bytes, rest: Bytes)
    requires Clean(unit, 0)
    ensures StartCode(unit) == -1
    ensures StartCode(unit + START_CODE + rest) == |unit|
  {
    var s := unit + START_CODE + rest;
    forall j: nat | j < |unit| ensures !At(s, j, 0, 0, 1) && !At(unit, j, 0, 0, 1) {
      CleanHasNoCode(unit, 0, j);
    }
    assert At(s, |unit|, 0, 0, 1);
  }

  // ----- cc_data -----

  function Triplets(b: Bytes, n: nat): Bytes {
    if n == 0 || |b| < 3 then []
    else (if b[0] / 4 % 2 == 1 && b[0] % 4 == 0 then [b[1] % 128, b[2] % 128] else []) + Triplets(b[3..], n - 1)
  }

  /** The valid field-1 pairs of cc_data(), parity stripped. */
  function CcPairs(b: Bytes): Bytes {
    if |b| < 2 || b[0] / 64 % 2 == 0 then [] else Triplets(b[2..], b[0] % 32)
  }

  method CcData(data: Bytes, before: Bytes) returns (out: Bytes)
    ensures out == before + CcPairs(data)
  {
    out := before;
    if |data| < 2 || data[0] / 64 % 2 == 0 {
      return;
    }
    var n := data[0] % 32;
    var b := data[2..];
    var i := 0;
    while i < n && |b| >= 3
      invariant 0 <= i <= n && out + Triplets(b, n - i) == before + CcPairs(data)
    {
      if b[0] / 4 % 2 == 1 && b[0] % 4 == 0 {
        assert out + ([b[1] % 128, b[2] % 128] + Triplets(b[3..], n - i - 1))
            == (out + [b[1] % 128, b[2] % 128]) + Triplets(b[3..], n - i - 1);
        out := out + [b[1] % 128, b[2] % 128];
      } else {
        assert [] + Triplets(b[3..], n - i - 1) == Triplets(b[3..], n - i - 1);
      }
      b := b[3..];
      i := i + 1;
    }
    assert out + [] == out;
  }

  // ----- SEI messages -----

  datatype Read = NoNumber | Number(value: nat, rest: Bytes)

  /** A number is 255 for each leading 0xff byte, and the byte after them. */
  function ReadNumber(b: Bytes): (r: Read)
    ensures r.Number? ==> |r.rest| < |b|
  {
    if b == [] then NoNumber
    else if b[0] != 0xff then Number(b[0], b[1..])
    else
      match ReadNumber(b[1..])
      case NoNumber => NoNumber
      case Number(value, rest) => Number(255 + value, rest)
  }

  /** user_data_registered_itu_t_t35 from ATSC: country 0xb5, provider 0x0031, "GA94", type 3. */
  const ATSC: Bytes := [0xb5, 0x00, 0x31, 0x47, 0x41, 0x39, 0x34, 0x03]

  function MessagePairs(kind: nat, msg: Bytes): Bytes {
    if kind == 4 && |msg| > 8 && msg[..8] == ATSC then CcPairs(msg[8..]) else []
  }

  function SeiPairs(b: Bytes): Bytes
    decreases |b|
  {
    if |b| <= 2 then []
    else
      match ReadNumber(b)
      case NoNumber => []
      case Number(kind, sized) =>
        match ReadNumber(sized)
        case NoNumber => []
        case Number(size, rest) =>
          if size > |rest| then [] else MessagePairs(kind, rest[..size]) + SeiPairs(rest[size..])
  }

  method TakeNumber(data: Bytes) returns (r: Read)
    ensures r == ReadNumber(data)
  {
    var b, value := data, 0;
    while |b| > 0 && b[0] == 0xff
      invariant value >= 0 && ReadNumber(data) ==
        (if ReadNumber(b).NoNumber? then NoNumber else Number(value + ReadNumber(b).value, ReadNumber(b).rest))
      decreases |b|
    {
      value := value + 255;
      b := b[1..];
    }
    if |b| == 0 {
      return NoNumber;
    }
    return Number(value + b[0], b[1..]);
  }

  method SeiCaptions(data: Bytes, before: Bytes) returns (out: Bytes)
    ensures out == before + SeiPairs(data)
  {
    hide ReadNumber, CcPairs;
    out := before;
    var b := data;
    while |b| > 2
      invariant out + SeiPairs(b) == before + SeiPairs(data)
      decreases |b|
    {
      var kind := TakeNumber(b);
      if kind.NoNumber? {
        return;
      }
      var size := TakeNumber(kind.rest);
      if size.NoNumber? || size.value > |size.rest| {
        return;
      }
      var msg := size.rest[..size.value];
      assert out + (MessagePairs(kind.value, msg) + SeiPairs(size.rest[size.value..]))
          == (out + MessagePairs(kind.value, msg)) + SeiPairs(size.rest[size.value..]);
      b := size.rest[size.value..];
      if kind.value == 4 && |msg| > 8 && msg[..8] == ATSC {
        out := CcData(msg[8..], out);
      }
    }
  }

  function H264Pairs(es: Bytes): Bytes
    decreases |es|
  {
    var i := StartCode(es);
    if i < 0 || i + 3 >= |es| then []
    else
      var unit := es[i + 3..];
      if unit[0] % 32 != 6 then H264Pairs(unit)
      else
        var end := if StartCode(unit) < 0 then |unit| else StartCode(unit);
        SeiPairs(Unescaped(if end > 0 then unit[1..end] else [], 0)) + H264Pairs(unit)
  }

  method FromH264(stream: Bytes) returns (out: Bytes)
    ensures out == H264Pairs(stream)
  {
    hide SeiPairs, Unescaped, At, StartCode;
    out := [];
    var es := stream;
    while true
      invariant out + H264Pairs(es) == H264Pairs(stream)
      decreases |es|
    {
      var i := StartCode(es);
      if i < 0 || i + 3 >= |es| {
        return;
      }
      es := es[i + 3..];
      if es[0] % 32 != 6 {
        continue;
      }
      var end := StartCode(es);
      if end < 0 {
        end := |es|;
      }
      assert end > 0 by { CodeStartsWithZero(es); }
      var unit := Unescape(es[1..end]);
      assert out + (SeiPairs(unit) + H264Pairs(es)) == (out + SeiPairs(unit)) + H264Pairs(es);
      out := SeiCaptions(unit, out);
    }
  }

  lemma CodeStartsWithZero(b: Bytes)
    requires b != [] && b[0] != 0
    ensures StartCode(b) != 0
  {
  }

  // ----- what a broadcaster sends comes out -----

  /** One entry of cc_data(): its marker, valid and type bits, and a byte pair with parity. */
  datatype Triplet = Triplet(flags: Byte, b1: Byte, b2: Byte)

  function PackTriplets(ts: seq<Triplet>): Bytes {
    if ts == [] then [] else [ts[0].flags, ts[0].b1, ts[0].b2] + PackTriplets(ts[1..])
  }

  function PackCc(ts: seq<Triplet>): Bytes
    requires |ts| <= 31
  {
    [0xc0 + |ts|, 0xff] + PackTriplets(ts) + [0xff]
  }

  /** The pairs of the valid entries of NTSC field 1. */
  function FieldOne(ts: seq<Triplet>): Bytes {
    if ts == [] then []
    else
      (if ts[0].flags / 4 % 2 == 1 && ts[0].flags % 4 == 0 then [ts[0].b1 % 128, ts[0].b2 % 128] else [])
      + FieldOne(ts[1..])
  }

  lemma {:induction false} TripletsRead(ts: seq<Triplet>, after: Bytes)
    ensures Triplets(PackTriplets(ts) + after, |ts|) == FieldOne(ts)
  {
    if ts != [] {
      TripletsRead(ts[1..], after);
      var b := PackTriplets(ts) + after;
      assert b[3..] == PackTriplets(ts[1..]) + after;
    }
  }

  /** One entry of cc_data: two 7-bit characters, each sent with a parity bit, of a field or of DTVCC, or not valid. */
  datatype Entry = Entry(valid: bool, kind: int, char1: Byte, char2: Byte, odd1: bool, odd2: bool) {
    predicate Ok() { 0 <= kind < 4 && char1 < 128 && char2 < 128 }

    /** Five marker bits, cc_valid and cc_type; then the two bytes. */
    function Coded(): Triplet
      requires Ok()
    {
      Triplet(0xf8 + (if valid then 4 else 0) + kind, char1 + if odd1 then 128 else 0, char2 + if odd2 then 128 else 0)
    }
  }

  predicate EntriesOk(es: seq<Entry>) { forall i :: 0 <= i < |es| ==> es[i].Ok() }

  function Coded(es: seq<Entry>): (ts: seq<Triplet>)
    requires EntriesOk(es)
    ensures |ts| == |es|
  {
    if es == [] then [] else [es[0].Coded()] + Coded(es[1..])
  }

  /** The characters meant for field 1. */
  function Characters(es: seq<Entry>): Bytes {
    if es == [] then []
    else (if es[0].valid && es[0].kind == 0 then [es[0].char1, es[0].char2] else []) + Characters(es[1..])
  }

  /** Coded entries are read back to the characters of field 1, without parity, whatever else is sent. */
  lemma {:induction false} EntriesRead(es: seq<Entry>, after: Bytes)
    requires EntriesOk(es) && |es| <= 31
    ensures CcPairs(PackCc(Coded(es)) + after) == Characters(es)
  {
    TripletsRead(Coded(es), [0xff] + after);
    FieldOneMeans(es);
    var b := PackCc(Coded(es)) + after;
    assert b[2..] == PackTriplets(Coded(es)) + ([0xff] + after);
    assert b[0] == 0xc0 + |es|;
  }

  lemma {:induction false} FieldOneMeans(es: seq<Entry>)
    requires EntriesOk(es)
    ensures FieldOne(Coded(es)) == Characters(es)
  {
    if es != [] {
      FieldOneMeans(es[1..]);
      var t := es[0].Coded();
      assert t.flags / 4 % 2 == 1 <==> es[0].valid;
      assert t.flags % 4 == es[0].kind && t.b1 % 128 == es[0].char1 && t.b2 % 128 == es[0].char2;
    }
  }

  function PackNumber(n: nat): Bytes {
    if n >= 255 then [0xff] + PackNumber(n - 255) else [n]
  }

  lemma {:induction false} NumberRead(n: nat, after: Bytes)
    ensures ReadNumber(PackNumber(n) + after) == Number(n, after)
  {
    var b := PackNumber(n) + after;
    if n >= 255 {
      NumberRead(n - 255, after);
      assert b[1..] == PackNumber(n - 255) + after;
    } else {
      assert b[1..] == after;
    }
  }

  datatype Message = Captions(entries: seq<Triplet>) | OtherMessage(kind: nat, payload: Bytes) {
    predicate Ok() {
      if Captions? then |entries| <= 31 else MessagePairs(kind, payload) == []
    }

    function Kind(): nat { if Captions? then 4 else kind }

    function Payload(): Bytes
      requires Ok()
    {
      if Captions? then [0xb5, 0x00, 0x31, 0x47, 0x41, 0x39, 0x34, 0x03] + PackCc(entries) else payload
    }

    function Pairs(): Bytes { if Captions? then FieldOne(entries) else [] }
  }

  predicate AllOk(messages: seq<Message>) { forall i :: 0 <= i < |messages| ==> messages[i].Ok() }

  function PackMessages(messages: seq<Message>): Bytes
    requires AllOk(messages)
  {
    if messages == [] then []
    else
      PackNumber(messages[0].Kind()) + (PackNumber(|messages[0].Payload()|) + (messages[0].Payload()
      + PackMessages(messages[1..])))
  }

  function MessagesPairs(messages: seq<Message>): Bytes {
    if messages == [] then [] else messages[0].Pairs() + MessagesPairs(messages[1..])
  }

  lemma MessageRead(m: Message)
    requires m.Ok()
    ensures MessagePairs(m.Kind(), m.Payload()) == m.Pairs()
  {
    if m.Captions? {
      var cc := PackCc(m.entries);
      assert m.Payload()[..8] == ATSC && m.Payload()[8..] == cc;
      assert cc[2..] == PackTriplets(m.entries) + [0xff];
      TripletsRead(m.entries, [0xff]);
    }
  }

  lemma {:induction false} MessagesRead(messages: seq<Message>, trailing: Bytes)
    requires AllOk(messages) && |trailing| <= 2
    ensures SeiPairs(PackMessages(messages) + trailing) == MessagesPairs(messages)
  {
    hide ReadNumber, MessagePairs, Message.Payload, Message.Kind, Message.Ok, Message.Pairs;
    var b := PackMessages(messages) + trailing;
    if messages != [] {
      var m, more := messages[0], PackMessages(messages[1..]) + trailing;
      var sized := PackNumber(|m.Payload()|) + (m.Payload() + more);
      assert b == PackNumber(m.Kind()) + sized;
      NumberRead(m.Kind(), sized);
      NumberRead(|m.Payload()|, m.Payload() + more);
      var rest := m.Payload() + more;
      assert rest[..|m.Payload()|] == m.Payload() && rest[|m.Payload()|..] == more;
      MessageRead(m);
      MessagesRead(messages[1..], trailing);
      if |b| <= 2 {
        ShortMessage(m);
        assert messages[1..] == [] || |more| > 0;
      }
    }
  }

  /** A message too short to hold captions holds none. */
  lemma ShortMessage(m: Message)
    requires m.Ok() && |PackNumber(m.Kind())| + |PackNumber(|m.Payload()|)| + |m.Payload()| <= 2
    ensures m.Pairs() == []
  {
  }

  /** A unit of the stream: SEI messages and trailing bits, or anything else without a start code in it. */
  datatype Unit = Sei(header: Byte, messages: seq<Message>, trailing: Bytes) | OtherUnit(bytes: Bytes) {
    predicate Ok() {
      if Sei? then header % 32 == 6 && AllOk(messages) && |trailing| <= 2
      else bytes != [] && bytes[0] % 32 != 6 && Clean(bytes, 0)
    }

    function Packed(): Bytes
      requires Ok()
    {
      if Sei? then [header] + Escaped(PackMessages(messages) + trailing, 0) else bytes
    }

    function Pairs(): Bytes { if Sei? then MessagesPairs(messages) else [] }
  }

  predicate UnitsOk(units: seq<Unit>) { forall i :: 0 <= i < |units| ==> units[i].Ok() }

  function Stream(units: seq<Unit>): Bytes
    requires UnitsOk(units)
  {
    if units == [] then [] else [0, 0, 1] + (units[0].Packed() + Stream(units[1..]))
  }

  function StreamPairs(units: seq<Unit>): Bytes {
    if units == [] then [] else units[0].Pairs() + StreamPairs(units[1..])
  }

  lemma PackedIsClean(u: Unit)
    requires u.Ok()
    ensures u.Packed() != [] && Clean(u.Packed(), 0)
  {
    if u.Sei? {
      EscapedIsClean(PackMessages(u.messages) + u.trailing, 0);
      assert u.Packed()[1..] == Escaped(PackMessages(u.messages) + u.trailing, 0);
    }
  }

  /** The first start code after a clean stretch is the next unit's. */
  lemma NextCode(p: Bytes, units: seq<Unit>)
    requires Clean(p, 0) && UnitsOk(units)
    ensures StartCode(p + Stream(units)) == if units == [] then -1 else |p|
  {
    hide Unit.Packed, Unit.Ok, Clean, At;
    if units == [] {
      UnitEnds(p, []);
      assert p + [] == p;
    } else {
      var rest := units[0].Packed() + Stream(units[1..]);
      UnitEnds(p, rest);
      assert p + START_CODE + rest == p + Stream(units);
    }
  }

  /** Only what follows the first start code is read. */
  lemma SameAfterCode(a: Bytes, b: Bytes)
    requires StartCode(a) >= 0 && StartCode(b) >= 0
    requires StartCode(a) + 3 <= |a| && StartCode(b) + 3 <= |b|
    requires a[StartCode(a) + 3..] == b[StartCode(b) + 3..]
    ensures H264Pairs(a) == H264Pairs(b)
  {
    hide At, SeiPairs, Unescaped, StartCode;
  }

  lemma SkipUnit(p: Bytes, units: seq<Unit>)
    requires Clean(p, 0) && UnitsOk(units)
    ensures H264Pairs(p + Stream(units)) == H264Pairs(Stream(units))
  {
    hide Unit.Packed, Unit.Ok, At, H264Pairs, StartCode;
    NextCode(p, units);
    NextCode([], units);
    assert [] + Stream(units) == Stream(units);
    if units != [] {
      var rest := units[0].Packed() + Stream(units[1..]);
      assert Stream(units) == START_CODE + rest;
      assert (p + Stream(units))[|p| + 3..] == rest && Stream(units)[3..] == rest;
      SameAfterCode(p + Stream(units), Stream(units));
    } else {
      NoCode(p + Stream(units));
      NoCode(Stream(units));
    }
  }

  lemma NoCode(b: Bytes)
    requires StartCode(b) < 0
    ensures H264Pairs(b) == []
  {
  }

  lemma UnitRead(u: Unit)
    requires u.Ok() && u.Sei?
    ensures SeiPairs(Unescaped(u.Packed()[1..], 0)) == u.Pairs()
  {
    var b := PackMessages(u.messages) + u.trailing;
    assert u.Packed()[1..] == Escaped(b, 0);
    hide SeiPairs, Unescaped, Escaped;
    UnescapeUndoesEscape(b, 0);
    MessagesRead(u.messages, u.trailing);
  }

  /** Packing captions into messages, units and a stream, and reading the stream, gives the captions back in order. */
  lemma {:induction false} CaptionsSurviveCarriage(units: seq<Unit>)
    requires UnitsOk(units)
    ensures H264Pairs(Stream(units)) == StreamPairs(units)
  {
    hide SeiPairs, Unescaped, StartCode, MessagesPairs, Escaped, PackMessages, At;
    if units != [] {
      var u, more := units[0], Stream(units[1..]);
      var unit := u.Packed() + more;
      PackedIsClean(u);
      NextCode([], units);
      NextCode(u.Packed(), units[1..]);
      SkipUnit(u.Packed(), units[1..]);
      CaptionsSurviveCarriage(units[1..]);
      assert [] + Stream(units) == Stream(units) && Stream(units)[3..] == unit;
      assert unit[0] == u.Packed()[0];
      if u.Sei? {
        UnitRead(u);
        assert unit[1..|u.Packed()|] == u.Packed()[1..];
      }
      assert unit[0] % 32 == 6 <==> u.Sei?;
    }
  }
}
