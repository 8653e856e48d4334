/** The CEA-608 screen machine: two screen memories, a cursor and a mode, driven by byte pairs. */
module Captions608 {
  const ROWS := 15
  const COLS := 32
  type Byte = n: int | 0 <= n < 256
  type Rune = nat
  type RowNo = n: int | 0 <= n < ROWS
  type ColNo = n: int | 0 <= n < COLS
  type Depth = n: int | 2 <= n <= 4 witness 2
  type Channel = n: int | 1 <= n <= 2 witness 1
  type Row = s: seq<Rune> | |s| == COLS witness seq(COLS, _ => 0)
  type Screen = s: seq<seq<Rune>> | |s| == ROWS && forall r :: 0 <= r < ROWS ==> |s[r]| == COLS
    witness seq(ROWS, _ => seq(COLS, _ => 0))

  datatype Mode = PopOn | RollUp | PaintOn
  datatype Pair = Pair(b1: Byte, b2: Byte)

  const NULL_PAIR := Pair(0, 0)

  function BlankRow(): Row { seq(COLS, _ => 0) }

  function Blank(): Screen { seq(ROWS, _ => BlankRow()) }

  const SPECIAL: seq<Rune> := [
    0xae, 0xb0, 0xbd, 0xbf, 0x2122, 0xa2, 0xa3, 0x266a, 0xe0, 0x20, 0xe8, 0xe2, 0xea, 0xee, 0xf4, 0xfb]
  const EXTENDED_12: seq<Rune> := [
    0xc1, 0xc9, 0xd3, 0xda, 0xdc, 0xfc, 0x2018, 0xa1, 0x2a, 0x27, 0x2014, 0xa9, 0x2120, 0x2022, 0x201c, 0x201d,
    0xc0, 0xc2, 0xc7, 0xc8, 0xca, 0xcb, 0xeb, 0xce, 0xcf, 0xef, 0xd4, 0xd9, 0xf9, 0xdb, 0xab, 0xbb]
  const EXTENDED_13: seq<Rune> := [
    0xc3, 0xe3, 0xcd, 0xcc, 0xec, 0xd2, 0xf2, 0xd5, 0xf5, 0x7b, 0x7d, 0x5c, 0x5e, 0x5f, 0x7c, 0x7e,
    0xc4, 0xe4, 0xd6, 0xf6, 0xdf, 0xa5, 0xa4, 0xa6, 0xc5, 0xe5, 0xd8, 0xf8, 0x250c, 0x2510, 0x2514, 0x2518]

  function Basic(b: Byte): Rune {
    match b
    case 0x27 => 0x2019
    case 0x2a => 0xe1
    case 0x5c => 0xe9
    case 0x5e => 0xed
    case 0x5f => 0xf3
    case 0x60 => 0xfa
    case 0x7b => 0xe7
    case 0x7c => 0xf7
    case 0x7d => 0xd1
    case 0x7e => 0xf1
    case 0x7f => 0x2588
    case _ => b
  }

  predicate IsControl(p: Pair) { 0x10 <= p.b1 <= 0x1f }

  predicate IsText(p: Pair) { p.b1 >= 0x20 }

  /** Bit 3 of a control pair's first byte names its caption channel. */
  function ChannelOf(p: Pair): Channel { if p.b1 / 8 % 2 == 1 then 2 else 1 }

  function WithoutChannel(b1: Byte): Byte { if b1 / 8 % 2 == 1 then b1 - 8 else b1 }

  /** The row a preamble names: the two rows of b1, the second when bit 5 of b2 is set. */
  function PreambleRow(b1: Byte, b2: Byte): RowNo
    requires 0x10 <= b1 <= 0x17
  {
    var second := b2 / 32 % 2;
    match b1
    case 0x11 => second
    case 0x12 => 2 + second
    case 0x15 => 4 + second
    case 0x16 => 6 + second
    case 0x17 => 8 + second
    case 0x10 => 10
    case 0x13 => 11 + second
    case _ => 13 + second
  }

  /** Indents are four columns each, in bits 1 to 3, when bit 4 is set. */
  function PreambleCol(b2: Byte): ColNo {
    if b2 / 16 % 2 == 1 then b2 / 2 % 8 * 4 else 0
  }

  /** Row r of the screen after a carriage return: depth rows ending at row move up, the rows above them go blank. */
  function ScrolledRow(s: Screen, row: RowNo, depth: Depth, r: RowNo): Row {
    if row - depth < r < row then s[r + 1] else if r > row then s[r] else BlankRow()
  }

  function Scrolled(s: Screen, row: RowNo, depth: Depth): Screen {
    seq(ROWS, r requires 0 <= r < ROWS => ScrolledRow(s, row, depth, r))
  }

  /** Row r once the window of depth rows ending at from ends at to; what leaves the screen is dropped. */
  function MovedRow(s: Screen, from: RowNo, to: RowNo, depth: Depth, r: RowNo): Row {
    if 0 <= to - r < depth && from - (to - r) >= 0 then s[from - (to - r)] else BlankRow()
  }

  function Moved(s: Screen, from: RowNo, to: RowNo, depth: Depth): Screen {
    seq(ROWS, r requires 0 <= r < ROWS => MovedRow(s, from, to, depth, r))
  }

  datatype Memory = Memory(
    shown: Screen, hidden: Screen, mode: Mode, depth: Depth, row: RowNo, col: ColNo, channel: Channel, text: bool)
  {
    function Target(): Screen { if mode.PopOn? then hidden else shown }

    function Writing(s: Screen): Memory {
      if mode.PopOn? then this.(hidden := s) else this.(shown := s)
    }

    function WithRow(cells: Row): Memory {
      Writing(Target()[row := cells])
    }

    function Put(r: Rune): Memory {
      WithRow(Target()[row][col := r]).(col := if col < COLS - 1 then col + 1 else col)
    }

    function Backspace(): Memory {
      if col == 0 then this
      else this.(col := col - 1).WithRow(Target()[row][col - 1 := 0])
    }

    function DeleteToEnd(): Memory {
      WithRow(Target()[row][..col] + BlankRow()[col..])
    }

    function StartRollUp(rows: Depth): Memory {
      var m := if mode.RollUp? then this else this.(shown := Blank(), hidden := Blank(), row := ROWS - 1);
      m.(mode := RollUp, text := false, depth := rows, col := 0)
    }

    function Misc(b2: Byte): Memory {
      match b2
      case 0x20 => this.(mode := PopOn, text := false)
      case 0x21 => Backspace()
      case 0x24 => DeleteToEnd()
      case 0x25 => StartRollUp(2)
      case 0x26 => StartRollUp(3)
      case 0x27 => StartRollUp(4)
      case 0x29 => this.(mode := PaintOn, text := false)
      case 0x2a => this.(text := true)
      case 0x2b => this.(text := true)
      case 0x2c => this.(shown := Blank())
      case 0x2d => if mode.RollUp? then this.(shown := Scrolled(shown, row, depth), col := 0) else this
      case 0x2e => this.(hidden := Blank())
      case 0x2f => this.(shown := hidden, hidden := shown, mode := PopOn, text := false)
      case _ => this
    }

    function Preamble(b1: Byte, b2: Byte): Memory
      requires 0x10 <= b1 <= 0x17
    {
      var to := PreambleRow(b1, b2);
      var s := if mode.RollUp? && to != row then Moved(shown, row, to, depth) else shown;
      this.(shown := s, row := to, col := PreambleCol(b2))
    }

    function Control(b1: Byte, b2: Byte): Memory
      requires 0x10 <= b1 <= 0x17
    {
      if (b1 == 0x14 || b1 == 0x15) && 0x20 <= b2 <= 0x2f then Misc(b2)
      else if b1 == 0x17 && 0x21 <= b2 <= 0x23 then
        this.(col := if col + (b2 - 0x20) < COLS - 1 then col + (b2 - 0x20) else COLS - 1)
      else if 0x40 <= b2 <= 0x7f then Preamble(b1, b2)
      else if text then this
      else if b1 == 0x11 && 0x20 <= b2 <= 0x2f then Put(0x20)
      else if b1 == 0x11 && 0x30 <= b2 <= 0x3f then Put(SPECIAL[b2 - 0x30])
      else if b1 == 0x12 && 0x20 <= b2 <= 0x3f then Extended(EXTENDED_12[b2 - 0x20])
      else if b1 == 0x13 && 0x20 <= b2 <= 0x3f then Extended(EXTENDED_13[b2 - 0x20])
      else this
    }

    /** Extended characters replace the cell before the cursor. */
    function Extended(r: Rune): Memory {
      this.(col := if col > 0 then col - 1 else 0).Put(r)
    }

    function Type(p: Pair): Memory {
      if channel != 1 || text || !IsText(p) then this
      else
        var m := Put(Basic(p.b1));
        if p.b2 >= 0x20 then m.Put(Basic(p.b2)) else m
    }

    /** What a pair asks for, were it sent once. */
    function Execute(p: Pair): Memory {
      if IsControl(p) then
        var m := this.(channel := ChannelOf(p));
        if ChannelOf(p) == 1 then m.Control(WithoutChannel(p.b1), p.b2) else m
      else Type(p)
    }
  }

  const START := Memory(Blank(), Blank(), PopOn, 3, ROWS - 1, 0, 1, false)

  /** The memory and the control pair whose second copy is still expected. */
  datatype State = State(mem: Memory, last: Pair) {
    function Step(p: Pair): State {
      if p == NULL_PAIR then this
      else if !IsControl(p) then State(mem.Execute(p), NULL_PAIR)
      else if last == p then State(mem, NULL_PAIR)
      else State(mem.Execute(p), p)
    }
  }

  function Run(s: State, pairs: seq<Pair>): State
    decreases pairs
  {
    if pairs == [] then s else Run(s.Step(pairs[0]), pairs[1..])
  }

  function ExecuteAll(m: Memory, pairs: seq<Pair>): Memory
    decreases pairs
  {
    if pairs == [] then m else ExecuteAll(m.Execute(pairs[0]), pairs[1..])
  }

  lemma {:induction false} RunConcat(s: State, a: seq<Pair>, b: seq<Pair>)
    ensures Run(s, a + b) == Run(Run(s, a), b)
    decreases a
  {
    hide State.Step;
    if a == [] {
      assert a + b == b;
    } else {
      assert (a + b)[1..] == a[1..] + b;
      RunConcat(s.Step(a[0]), a[1..], b);
    }
  }

  lemma {:induction false} ExecuteConcat(m: Memory, a: seq<Pair>, b: seq<Pair>)
    ensures ExecuteAll(m, a + b) == ExecuteAll(ExecuteAll(m, a), b)
    decreases a
  {
    hide Memory.Execute;
    if a == [] {
      assert a + b == b;
    } else {
      assert (a + b)[1..] == a[1..] + b;
      ExecuteConcat(m.Execute(a[0]), a[1..], b);
    }
  }

  // ----- sending control pairs twice -----

  function Repeat(p: Pair, n: nat): seq<Pair> { seq(n, _ => p) }

  /** A control pair met n times in a row runs every other time. */
  lemma {:induction false} CopiesRun(s: State, p: Pair, n: nat)
    requires IsControl(p) && s.last != p
    ensures Run(s, Repeat(p, n)).mem == ExecuteAll(s.mem, Repeat(p, (n + 1) / 2))
    ensures n > 0 ==> Run(s, Repeat(p, n)).last == if n % 2 == 1 then p else NULL_PAIR
    decreases n
  {
    hide Memory.Execute;
    if n == 1 {
      assert Repeat(p, n) == [p];
      assert Run(s, [p]) == Run(s.Step(p), []);
    } else if n >= 2 {
      var t := s.Step(p).Step(p);
      assert t == State(s.mem.Execute(p), NULL_PAIR);
      assert Repeat(p, n)[1..] == Repeat(p, n - 1) && Repeat(p, n - 1)[1..] == Repeat(p, n - 2);
      assert Repeat(p, (n + 1) / 2)[1..] == Repeat(p, (n - 2 + 1) / 2);
      CopiesRun(t, p, n - 2);
    }
  }

  /** A text pair sent once, or a command wanted times times in a row of which lost copies do not arrive. */
  datatype Item = Typed(pair: Pair) | Command(pair: Pair, times: nat, lost: nat) {
    predicate Ok() {
      match this
      case Typed(p) => !IsControl(p)
      case Command(p, times, lost) => IsControl(p) && times > 0 && lost <= 2 * times
    }

    function Meant(): seq<Pair> {
      if Typed? then [pair] else Repeat(pair, times)
    }

    function Arriving(): seq<Pair>
      requires Ok()
    {
      if Typed? then [pair] else Repeat(pair, 2 * times - lost)
    }
  }

  predicate Stream(items: seq<Item>) {
    forall i :: 0 <= i < |items| ==> items[i].Ok()
  }

  /** Commands that follow each other differ: a longer run of one command is one Command item. */
  predicate Apart(items: seq<Item>) {
    forall i, j :: 0 <= i < j == i + 1 < |items| && items[i].Command? && items[j].Command? ==>
      items[i].pair != items[j].pair
  }

  function Meant(items: seq<Item>): seq<Pair> {
    if items == [] then [] else items[0].Meant() + Meant(items[1..])
  }

  function Arriving(items: seq<Item>): seq<Pair>
    requires Stream(items)
  {
    if items == [] then [] else items[0].Arriving() + Arriving(items[1..])
  }

  /** Nothing but a copy of this item's own pair can be skipped after it. */
  predicate Expects(s: State, item: Item) {
    s.last == NULL_PAIR || s.last == item.pair
  }

  lemma ItemRuns(s: State, item: Item)
    requires item.Ok() && (item.Command? ==> s.last != item.pair && item.lost <= 1)
    ensures Run(s, item.Arriving()).mem == ExecuteAll(s.mem, item.Meant())
    ensures item.pair == NULL_PAIR || Expects(Run(s, item.Arriving()), item)
    ensures item.pair == NULL_PAIR ==> Run(s, item.Arriving()).last == s.last
  {
    hide Memory.Execute, Memory.Type;
    match item
    case Typed(p) =>
      assert Run(s, [p]) == Run(s.Step(p), []);
      assert ExecuteAll(s.mem, [p]) == ExecuteAll(s.mem.Execute(p), []);
      NullExecutes(s.mem);
    case Command(p, times, lost) =>
      CopiesRun(s, p, 2 * times - lost);
      assert (2 * times - lost + 1) / 2 == times;
  }

  lemma NullExecutes(m: Memory)
    ensures m.Execute(NULL_PAIR) == m
  {
  }

  /** Padding pairs between a command's copies and around everything change nothing. */
  lemma {:induction false} PaddingIsIgnored(s: State, pairs: seq<Pair>)
    ensures Run(s, WithoutPadding(pairs)) == Run(s, pairs)
    decreases pairs
  {
    hide Memory.Execute;
    if pairs != [] {
      PaddingIsIgnored(s.Step(pairs[0]), pairs[1..]);
      if pairs[0] != NULL_PAIR {
        assert WithoutPadding(pairs)[1..] == WithoutPadding(pairs[1..]);
      } else {
        assert WithoutPadding(pairs) == WithoutPadding(pairs[1..]);
      }
    }
  }

  function WithoutPadding(pairs: seq<Pair>): seq<Pair> {
    if pairs == [] then []
    else (if pairs[0] == NULL_PAIR then [] else [pairs[0]]) + WithoutPadding(pairs[1..])
  }

  /**
   * Commands sent twice, with at most one copy lost from each run of the same command, leave the memories, the
   * cursor and the mode that executing each once leaves.
   */
  lemma {:induction false} RedundancyWorks(s: State, items: seq<Item>)
    requires Stream(items) && Apart(items)
    requires forall i :: 0 <= i < |items| ==>
      items[i].pair != NULL_PAIR && (items[i].Command? ==> items[i].lost <= 1)
    requires items != [] && items[0].Command? ==> s.last != items[0].pair
    ensures Run(s, Arriving(items)).mem == ExecuteAll(s.mem, Meant(items))
    decreases items
  {
    hide Memory.Execute, State.Step;
    if items != [] {
      var rest := items[1..];
      ItemRuns(s, items[0]);
      var t := Run(s, items[0].Arriving());
      RunConcat(s, items[0].Arriving(), Arriving(rest));
      ExecuteConcat(s.mem, items[0].Meant(), Meant(rest));
      if rest != [] && rest[0].Command? {
        NotExpected(t, items[0], rest[0]);
      }
      assert forall i, j :: 0 <= i < j == i + 1 < |rest| ==> rest[i] == items[i + 1] && rest[j] == items[j + 1];
      RedundancyWorks(t, rest);
    }
  }

  lemma NotExpected(s: State, a: Item, b: Item)
    requires a.Ok() && b.Ok() && b.Command? && Expects(s, a)
    requires a.Command? ==> a.pair != b.pair
    ensures s.last != b.pair
  {
  }

  /** Losing both copies of one of times equal commands loses exactly one of them. */
  lemma TwoLostLosesOne(s: State, p: Pair, times: nat)
    requires IsControl(p) && s.last != p && times > 0
    ensures Run(s, Command(p, times, 2).Arriving()).mem == ExecuteAll(s.mem, Repeat(p, times - 1))
  {
    hide Memory.Execute, State.Step;
    CopiesRun(s, p, 2 * times - 2);
    assert (2 * times - 2 + 1) / 2 == times - 1;
  }

  // ----- the other caption channel -----

  /** The pairs meant for channel 1: from a channel 2 command on, nothing until a channel 1 command. */
  function ForChannel1(channel: Channel, pairs: seq<Pair>): seq<Pair>
    decreases pairs
  {
    if pairs == [] then []
    else
      var now := if IsControl(pairs[0]) then ChannelOf(pairs[0]) else channel;
      (if now == 1 then [pairs[0]] else []) + ForChannel1(now, pairs[1..])
  }

  /** Were each pair obeyed as it comes, channel 1's screens would be those of its own pairs. */
  lemma {:induction false} OtherChannelIsIgnored(m: Memory, n: Memory, pairs: seq<Pair>)
    requires m == n.(channel := m.channel) && (m.channel == 1 ==> n.channel == 1)
    ensures var a, b := ExecuteAll(m, pairs), ExecuteAll(n, ForChannel1(m.channel, pairs));
            a == b.(channel := a.channel)
    decreases pairs
  {
    hide Memory.Control, Memory.Put;
    if pairs != [] {
      var p := pairs[0];
      var now := if IsControl(p) then ChannelOf(p) else m.channel;
      assert m.Execute(p).channel == now by { ControlKeepsChannel(m.(channel := 1), p); }
      var kept := ForChannel1(m.channel, pairs);
      if now == 1 {
        assert kept[1..] == ForChannel1(now, pairs[1..]);
        assert m.Execute(p) == n.Execute(p);
        OtherChannelIsIgnored(m.Execute(p), n.Execute(p), pairs[1..]);
      } else {
        assert kept == ForChannel1(now, pairs[1..]);
        OtherChannelIsIgnored(m.Execute(p), n, pairs[1..]);
      }
    }
  }

  lemma ControlKeepsChannel(m: Memory, p: Pair)
    ensures IsControl(p) ==> m.Control(WithoutChannel(p.b1), p.b2).channel == m.channel
    ensures forall r :: m.Put(r).channel == m.channel
    ensures m.Type(p).channel == m.channel
  {
    hide Moved, Scrolled;
  }

  /** The pairs a run obeys: all but padding and the second copies it skips. */
  function Executed(last: Pair, pairs: seq<Pair>): seq<Pair>
    decreases pairs
  {
    if pairs == [] then []
    else if pairs[0] == NULL_PAIR then Executed(last, pairs[1..])
    else if !IsControl(pairs[0]) then [pairs[0]] + Executed(NULL_PAIR, pairs[1..])
    else if pairs[0] == last then Executed(NULL_PAIR, pairs[1..])
    else [pairs[0]] + Executed(pairs[0], pairs[1..])
  }

  lemma {:induction false} RunExecutes(s: State, pairs: seq<Pair>)
    ensures Run(s, pairs).mem == ExecuteAll(s.mem, Executed(s.last, pairs))
    decreases pairs
  {
    hide Memory.Execute;
    if pairs != [] {
      RunExecutes(s.Step(pairs[0]), pairs[1..]);
      var rest := Executed(s.Step(pairs[0]).last, pairs[1..]);
      assert ([pairs[0]] + rest)[1..] == rest;
    }
  }

  /** The command whose second copy is expected is the last of the current channel. */
  predicate Fresh(last: Pair, channel: Channel) {
    last == NULL_PAIR || (IsControl(last) && ChannelOf(last) == channel)
  }

  /**
    No command of channel 1 comes right after channel 2 when channel 1 alone
    would take it for the second copy it expects.
  */
  predicate NothingTorn(expected: Pair, channel: Channel, pairs: seq<Pair>)
    decreases pairs
  {
    pairs == [] ||
    var p, rest := pairs[0], pairs[1..];
    if p == NULL_PAIR then NothingTorn(expected, channel, rest)
    else if !IsControl(p) then NothingTorn(if channel == 1 then NULL_PAIR else expected, channel, rest)
    else if ChannelOf(p) == 2 then NothingTorn(expected, 2, rest)
    else !(channel == 2 && p == expected) && NothingTorn(if p == expected then NULL_PAIR else p, 1, rest)
  }

  lemma {:induction false} NothingTornBefore(expected: Pair, channel: Channel, pairs: seq<Pair>, k: nat)
    requires NothingTorn(expected, channel, pairs) && k <= |pairs|
    ensures NothingTorn(expected, channel, pairs[..k])
    decreases pairs
  {
    if k > 0 {
      var p := pairs[0];
      assert pairs[..k][1..] == pairs[1..][..k - 1];
      var now := if IsControl(p) then ChannelOf(p) else channel;
      NothingTornBefore(ExpectedNext(expected, channel, p), now, pairs[1..], k - 1);
    }
  }

  /** The command channel 1 alone would expect again after one pair of the mixture. */
  function ExpectedNext(expected: Pair, channel: Channel, p: Pair): Pair {
    if p == NULL_PAIR then expected
    else if !IsControl(p) then (if channel == 1 then NULL_PAIR else expected)
    else if ChannelOf(p) == 2 then expected
    else if p == expected then NULL_PAIR else p
  }

  function LastNext(last: Pair, p: Pair): Pair {
    if p == NULL_PAIR then last else if !IsControl(p) || p == last then NULL_PAIR else p
  }

  /** What the mixture and channel 1 alone obey of its first pair. */
  lemma FirstExecuted(last: Pair, expected: Pair, channel: Channel, pairs: seq<Pair>)
    requires pairs != [] && Fresh(last, channel)
    ensures var p := pairs[0];
            var now := if IsControl(p) then ChannelOf(p) else channel;
            var mixed := if p != NULL_PAIR && now == 1 && !(IsControl(p) && p == last) then [p] else [];
            var alone := if p != NULL_PAIR && now == 1 && !(IsControl(p) && p == expected) then [p] else [];
            && ForChannel1(channel, Executed(last, pairs)) ==
                 mixed + ForChannel1(now, Executed(LastNext(last, p), pairs[1..]))
            && Executed(expected, ForChannel1(channel, pairs)) ==
                 alone + Executed(ExpectedNext(expected, channel, p), ForChannel1(now, pairs[1..]))
            && Fresh(LastNext(last, p), now)
  {
    var p := pairs[0];
    var now := if IsControl(p) then ChannelOf(p) else channel;
    var rest := Executed(LastNext(last, p), pairs[1..]);
    assert ([p] + rest)[1..] == rest;
    var own := ForChannel1(now, pairs[1..]);
    assert ([p] + own)[1..] == own;
    if now == 1 {
      assert ForChannel1(channel, pairs) == [p] + own;
    } else {
      assert ForChannel1(channel, pairs) == own;
    }
    var later := Executed(ExpectedNext(expected, channel, p), own);
    assert [] + later == later;
  }

  lemma {:induction false} UntornSame(last: Pair, expected: Pair, channel: Channel, pairs: seq<Pair>)
    requires Fresh(last, channel) && (channel == 1 ==> expected == last) && NothingTorn(expected, channel, pairs)
    ensures ForChannel1(channel, Executed(last, pairs)) == Executed(expected, ForChannel1(channel, pairs))
    decreases pairs
  {
    if pairs != [] {
      var p := pairs[0];
      FirstExecuted(last, expected, channel, pairs);
      var now := if IsControl(p) then ChannelOf(p) else channel;
      hide Executed, ForChannel1;
      UntornSame(LastNext(last, p), ExpectedNext(expected, channel, p), now, pairs[1..]);
    }
  }

  lemma {:induction false} TornDiffers(last: Pair, expected: Pair, channel: Channel, pairs: seq<Pair>) returns (k: nat)
    requires Fresh(last, channel) && (channel == 1 ==> expected == last) && !NothingTorn(expected, channel, pairs)
    ensures k <= |pairs|
    ensures ForChannel1(channel, Executed(last, pairs[..k])) != Executed(expected, ForChannel1(channel, pairs[..k]))
    decreases pairs
  {
    var p := pairs[0];
    var now := if IsControl(p) then ChannelOf(p) else channel;
    if channel == 2 && now == 1 && p == expected {
      k := 1;
      TornAtOnce(last, p);
      assert pairs[..1] == [p];
    } else {
      FirstExecuted(last, expected, channel, pairs);
      k := TornDiffers(LastNext(last, p), ExpectedNext(expected, channel, p), now, pairs[1..]);
      k := k + 1;
      var first := pairs[..k];
      assert first[1..] == pairs[1..][..k - 1] && first[0] == p;
      FirstExecuted(last, expected, channel, first);
      var obeyed := if p != NULL_PAIR && now == 1 && !(IsControl(p) && p == last) then [p] else [];
      DifferAfter(obeyed, ForChannel1(now, Executed(LastNext(last, p), first[1..])),
                  Executed(ExpectedNext(expected, channel, p), ForChannel1(now, first[1..])));
      hide Executed, ForChannel1, NothingTorn;
    }
  }

  lemma DifferAfter(a: seq<Pair>, b: seq<Pair>, c: seq<Pair>)
    ensures b != c ==> a + b != a + c
  {
    assert (a + b)[|a|..] == b && (a + c)[|a|..] == c;
  }

  lemma TornAtOnce(last: Pair, p: Pair)
    requires IsControl(p) && ChannelOf(p) == 1 && Fresh(last, 2)
    ensures ForChannel1(2, Executed(last, [p])) == [p] && Executed(p, ForChannel1(2, [p])) == []
  {
    assert [p][1..] == [];
    assert Executed(last, [p]) == [p] && ForChannel1(2, [p]) == [p];
  }

  /**
    With channel 2 mixed in, channel 1 obeys at every moment what it would obey
    of its own pairs alone, exactly when no copy is torn from its first by
    channel 2: the pair expected again is remembered across channels.
  */
  lemma SameCommandsExactlyWhenUntorn(last: Pair, channel: Channel, pairs: seq<Pair>)
    requires Fresh(last, channel)
    ensures var expected := if channel == 1 then last else NULL_PAIR;
            NothingTorn(expected, channel, pairs) <==>
              forall k :: 0 <= k <= |pairs| ==>
                ForChannel1(channel, Executed(last, pairs[..k])) == Executed(expected, ForChannel1(channel, pairs[..k]))
  {
    var expected := if channel == 1 then last else NULL_PAIR;
    if NothingTorn(expected, channel, pairs) {
      forall k | 0 <= k <= |pairs|
        ensures ForChannel1(channel, Executed(last, pairs[..k])) == Executed(expected, ForChannel1(channel, pairs[..k]))
      {
        NothingTornBefore(expected, channel, pairs, k);
        UntornSame(last, expected, channel, pairs[..k]);
      }
    } else {
      var k := TornDiffers(last, expected, channel, pairs);
    }
  }

  /** Untorn, channel 2's captions may be mixed in anywhere: the decoder ends with the screens of channel 1's own pairs. */
  lemma UntornMixing(s: State, pairs: seq<Pair>)
    requires s.mem.channel == 1 && Fresh(s.last, 1) && NothingTorn(s.last, 1, pairs)
    ensures var mixed, alone := Run(s, pairs).mem, Run(s, ForChannel1(1, pairs)).mem;
            mixed == alone.(channel := mixed.channel)
  {
    RunExecutes(s, pairs);
    RunExecutes(s, ForChannel1(1, pairs));
    UntornSame(s.last, s.last, 1, pairs);
    OtherChannelIsIgnored(s.mem, s.mem, Executed(s.last, pairs));
  }

  /** A backspace, a channel 2 command and the backspace's copy: two characters go where channel 1 alone loses one. */
  lemma TornCopyRunsTwice()
    ensures var s := State(START.(col := 5), NULL_PAIR);
            var pairs := [Pair(0x14, 0x21), Pair(0x1c, 0x20), Pair(0x14, 0x21)];
            && !NothingTorn(NULL_PAIR, 1, pairs)
            && Run(s, pairs).mem.col == 3 && Run(s, ForChannel1(1, pairs)).mem.col == 4
  {
    var s := State(START.(col := 5), NULL_PAIR);
    var bs, other := Pair(0x14, 0x21), Pair(0x1c, 0x20);
    var pairs := [bs, other, bs];
    assert pairs[1..] == [other, bs] && pairs[1..][1..] == [bs] && [bs][1..] == [];
    hide Memory.Execute;
    assert ForChannel1(1, [bs]) == [bs] && ForChannel1(2, [bs]) == [bs] && ForChannel1(1, [other, bs]) == [bs];
    assert ForChannel1(1, pairs) == [bs, bs] && [bs, bs][1..] == [bs];
    RunExecutes(s, pairs);
    RunExecutes(s, [bs, bs]);
    assert Executed(other, [bs]) == [bs] && Executed(bs, [other, bs]) == [other, bs];
    assert Executed(NULL_PAIR, pairs) == [bs, other, bs];
    assert Executed(bs, [bs]) == [] && Executed(NULL_PAIR, [bs, bs]) == [bs];
    hide Run, Executed, ForChannel1;
    TwoBackspaces(s.mem, bs, other);
  }

  lemma TwoBackspaces(m: Memory, bs: Pair, other: Pair)
    requires m == START.(col := 5) && bs == Pair(0x14, 0x21) && other == Pair(0x1c, 0x20)
    ensures ExecuteAll(m, [bs]).col == 4 && ExecuteAll(m, [bs, other, bs]).col == 3
  {
    assert [bs][1..] == [] && [bs, other, bs][1..] == [other, bs] && [other, bs][1..] == [bs];
    var a := m.Execute(bs);
    assert a == m.(channel := 1).Misc(0x21);
    var b := a.Execute(other);
    assert b == a.(channel := 2);
    var c := b.Execute(bs);
    assert c == b.(channel := 1).Misc(0x21);
    hide Memory.Execute, Memory.Misc;
    assert ExecuteAll(b, [bs]) == ExecuteAll(c, []) == c;
    assert ExecuteAll(a, [other, bs]) == ExecuteAll(b, [bs]);
  }

  /**
    Doubled commands of both channels, each run of one command with at most one
    copy lost: the decoder ends with the screens that executing channel 1's
    meant commands once leaves.
  */
  lemma MixedRedundancyWorks(s: State, items: seq<Item>)
    requires Stream(items) && Apart(items)
    requires forall i :: 0 <= i < |items| ==>
      items[i].pair != NULL_PAIR && (items[i].Command? ==> items[i].lost <= 1)
    requires items != [] && items[0].Command? ==> s.last != items[0].pair
    ensures var mixed, alone := Run(s, Arriving(items)).mem, ExecuteAll(s.mem, ForChannel1(s.mem.channel, Meant(items)));
            mixed == alone.(channel := mixed.channel)
  {
    RedundancyWorks(s, items);
    OtherChannelIsIgnored(s.mem, s.mem, Meant(items));
  }

  // ----- what each mode keeps off the screen -----

  /** Channel 1 commands that change what a pop-on caption's screen displays: RU2 to RU4, RDC, EDM and EOC. */
  predicate TakesScreen(p: Pair) {
    (p.b1 == 0x14 || p.b1 == 0x15) && p.b2 in {0x25, 0x26, 0x27, 0x29, 0x2c, 0x2f}
  }

  lemma LoadingStep(m: Memory, p: Pair)
    requires m.mode.PopOn? && !TakesScreen(p)
    ensures m.Execute(p).mode.PopOn? && m.Execute(p).shown == m.shown
  {
    if IsControl(p) && ChannelOf(p) == 1 {
      LoadingControl(m.(channel := 1), p.b1, p.b2);
    }
  }

  lemma LoadingControl(m: Memory, b1: Byte, b2: Byte)
    requires m.mode.PopOn? && 0x10 <= b1 <= 0x17
    requires b1 == 0x14 || b1 == 0x15 ==> b2 !in {0x25, 0x26, 0x27, 0x29, 0x2c, 0x2f}
    ensures m.Control(b1, b2).mode.PopOn? && m.Control(b1, b2).shown == m.shown
  {
    hide Scrolled, Moved, PreambleRow, PreambleCol;
  }

  /** Loading a pop-on caption shows nothing until the command that ends it, which shows all of it at once. */
  lemma {:induction false} LoadingIsInvisible(s: State, pairs: seq<Pair>)
    requires s.mem.mode.PopOn? && forall i :: 0 <= i < |pairs| ==> !TakesScreen(pairs[i])
    ensures Run(s, pairs).mem.mode.PopOn? && Run(s, pairs).mem.shown == s.mem.shown
    ensures var eoc, loaded := Pair(0x14, 0x2f), Run(s, pairs);
            loaded.last != eoc ==> loaded.Step(eoc).mem == loaded.mem.(
              shown := loaded.mem.hidden, hidden := s.mem.shown, mode := PopOn, text := false, channel := 1)
    decreases pairs
  {
    if pairs == [] {
      assert s.mem.Execute(Pair(0x14, 0x2f)) == s.mem.(channel := 1).Misc(0x2f);
    } else {
      LoadingStep(s.mem, pairs[0]);
      hide Memory.Execute, TakesScreen;
      LoadingIsInvisible(s.Step(pairs[0]), pairs[1..]);
    }
  }

  /** Nothing is displayed outside the d rows that end at the cursor's row. */
  predicate Windowed(m: Memory, d: Depth) {
    m.mode.RollUp? ==> forall r :: 0 <= r < ROWS && !(m.row - d < r <= m.row) ==> m.shown[r] == BlankRow()
  }

  lemma WindowControl(m: Memory, b1: Byte, b2: Byte, d: Depth)
    requires 0x10 <= b1 <= 0x17 && Windowed(m, d) && m.depth <= d && m.Control(b1, b2).depth <= d
    ensures Windowed(m.Control(b1, b2), d)
  {
    hide PreambleRow, PreambleCol;
  }

  lemma WindowStep(m: Memory, p: Pair, d: Depth)
    requires Windowed(m, d) && m.depth <= d && m.Execute(p).depth <= d
    ensures Windowed(m.Execute(p), d)
  {
    hide PreambleRow, PreambleCol, Memory.Control;
    if IsControl(p) && ChannelOf(p) == 1 {
      WindowControl(m.(channel := 1), WithoutChannel(p.b1), p.b2, d);
    }
  }

  /** However the commands come, roll-up text stays in the four rows ending at the cursor's. */
  lemma {:induction false} RollUpStaysInWindow(s: State, pairs: seq<Pair>)
    requires Windowed(s.mem, 4)
    ensures Windowed(Run(s, pairs).mem, 4)
    decreases pairs
  {
    hide Memory.Execute, Windowed;
    if pairs != [] {
      WindowStep(s.mem, pairs[0], 4);
      RollUpStaysInWindow(s.Step(pairs[0]), pairs[1..]);
    }
  }

  lemma RollUpFromStart(pairs: seq<Pair>)
    ensures Windowed(Run(State(START, NULL_PAIR), pairs).mem, 4)
  {
    RollUpStaysInWindow(State(START, NULL_PAIR), pairs);
  }

  /** A carriage return leaves no more than depth - 1 rows displayed, above an empty one: the text rolled up. */
  lemma CarriageReturnRolls(m: Memory, d: Depth)
    requires m.mode.RollUp? && m.channel == 1 && Windowed(m, d)
    ensures var n := m.Execute(Pair(0x14, 0x2d));
            && Windowed(n, m.depth) && n.shown[m.row] == BlankRow() && n.col == 0
            && forall r :: 0 <= r < m.row && m.row - m.depth < r ==> n.shown[r] == m.shown[r + 1]
  {
    assert m.Execute(Pair(0x14, 0x2d)) == m.Misc(0x2d);
  }

  // ----- typing -----

  /** Characters two to a pair; the last alone when their number is odd. */
  function PairedUp(chars: seq<Byte>): seq<Pair> {
    if chars == [] then []
    else if |chars| == 1 then [Pair(chars[0], 0)]
    else [Pair(chars[0], chars[1])] + PairedUp(chars[2..])
  }

  function Runes(chars: seq<Byte>): (r: seq<Rune>)
    ensures |r| == |chars|
  {
    seq(|chars|, i requires 0 <= i < |chars| => Basic(chars[i]))
  }

  /** The memory with runes written from the cursor on, in its row. */
  function AfterTyping(m: Memory, runes: seq<Rune>): Memory
    requires m.col + |runes| <= COLS
  {
    var cells := m.Target()[m.row];
    m.WithRow(cells[..m.col] + runes + cells[m.col + |runes|..])
     .(col := if m.col + |runes| < COLS then m.col + |runes| else COLS - 1)
  }

  lemma PutTypes(m: Memory, r: Rune)
    ensures m.Put(r) == AfterTyping(m, [r])
  {
    var cells := m.Target()[m.row];
    assert cells[m.col := r] == cells[..m.col] + [r] + cells[m.col + 1..];
  }

  lemma TypedTwice(m: Memory, a: seq<Rune>, b: seq<Rune>)
    requires m.col + |a| + |b| <= COLS && (b == [] || m.col + |a| < COLS)
    ensures AfterTyping(m, a).col + |b| <= COLS || b == []
    ensures b != [] ==> AfterTyping(AfterTyping(m, a), b) == AfterTyping(m, a + b)
  {
    if b != [] {
      var cells, n := m.Target()[m.row], AfterTyping(m, a);
      var after := cells[..m.col] + a + cells[m.col + |a|..];
      assert n.Target()[n.row] == after && n.col == m.col + |a|;
      assert after[..n.col] + b + after[n.col + |b|..] == cells[..m.col] + (a + b) + cells[m.col + |a + b|..];
      Overwritten(m.Target(), m.row, after, cells[..m.col] + (a + b) + cells[m.col + |a + b|..]);
    }
  }

  lemma Overwritten(s: Screen, row: RowNo, a: Row, b: Row)
    ensures s[row := a][row := b] == s[row := b]
  {
  }

  /** Typed characters land in order from the cursor on, and nothing else of either memory changes. */
  lemma {:induction false} TypedTextLands(m: Memory, chars: seq<Byte>)
    requires m.channel == 1 && !m.text && m.col + |chars| <= COLS
    requires forall i :: 0 <= i < |chars| ==> chars[i] >= 0x20
    ensures chars != [] ==> ExecuteAll(m, PairedUp(chars)) == AfterTyping(m, Runes(chars))
    ensures chars == [] ==> ExecuteAll(m, PairedUp(chars)) == m
    decreases chars
  {
    hide AfterTyping, Basic;
    if |chars| == 1 {
      assert ExecuteAll(m, [Pair(chars[0], 0)]) == ExecuteAll(m.Execute(Pair(chars[0], 0)), []);
      PutTypes(m, Basic(chars[0]));
      assert Runes(chars) == [Basic(chars[0])];
    } else if |chars| >= 2 {
      TwoTyped(m, chars[0], chars[1]);
      var two := [Basic(chars[0]), Basic(chars[1])];
      var n := AfterTyping(m, two);
      assert PairedUp(chars)[1..] == PairedUp(chars[2..]);
      assert Runes(chars) == two + Runes(chars[2..]);
      TypedKeeps(m, two);
      if chars[2..] == [] {
        assert two + [] == two;
      } else {
        TypedTextLands(n, chars[2..]);
        TypedTwice(m, two, Runes(chars[2..]));
      }
    }
  }

  lemma TypedKeeps(m: Memory, runes: seq<Rune>)
    requires m.col + |runes| <= COLS
    ensures AfterTyping(m, runes).channel == m.channel && AfterTyping(m, runes).text == m.text
    ensures m.col + |runes| < COLS ==> AfterTyping(m, runes).col == m.col + |runes|
  {
  }

  lemma TwoTyped(m: Memory, a: Byte, b: Byte)
    requires m.channel == 1 && !m.text && m.col + 2 <= COLS && a >= 0x20 && b >= 0x20
    ensures m.Execute(Pair(a, b)) == AfterTyping(m, [Basic(a), Basic(b)])
  {
    hide Basic;
    PutTypes(m, Basic(a));
    PutTypes(m.Put(Basic(a)), Basic(b));
    TypedTwice(m, [Basic(a)], [Basic(b)]);
    assert [Basic(a)] + [Basic(b)] == [Basic(a), Basic(b)];
  }

  /**
   * Backspace takes back the character typed last exactly when it was not typed in the last column, where the cursor
   * stays on it: there the cell before it is emptied.
   */
  lemma BackspaceUndoesTyping(m: Memory, r: Rune)
    requires r != 0
    ensures m.Put(r).Backspace() == m.WithRow(m.Target()[m.row][m.col := 0]) <==> m.col < COLS - 1
  {
    var cells := m.Target()[m.row];
    var after := m.Put(r).Backspace();
    if m.col < COLS - 1 {
      assert cells[m.col := r][m.col := 0] == cells[m.col := 0];
    } else {
      assert after.col == COLS - 2;
    }
  }
}
