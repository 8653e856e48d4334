/** Caption cues: what the CEA-608 screen displays, as text with a start and an end on the 90 kHz clock. */
module CaptionCues {
  import opened Captions608
  import Reorder

  /** The least time between two showings of typed text. */
  const SHOWN_EVERY := 18000

  /** A caption's text is its list of lines: no cell can hold a line break. */
  type Text = seq<seq<Rune>>

  datatype Cue = Cue(start: int, end: int, text: Text, top: bool)

  // ----- rendering -----

  predicate IsSpace(r: Rune) {
    9 <= r <= 13 || r == 0x20 || r == 0x85 || r == 0xa0
  }

  function TrimLeft(s: seq<Rune>): seq<Rune> {
    if s != [] && IsSpace(s[0]) then TrimLeft(s[1..]) else s
  }

  function TrimRight(s: seq<Rune>): seq<Rune> {
    if s != [] && IsSpace(s[|s| - 1]) then TrimRight(s[..|s| - 1]) else s
  }

  /** A row's text: empty cells are spaces, and spaces at either end are left off. */
  function Line(row: Row): seq<Rune> {
    TrimRight(TrimLeft(seq(COLS, c requires 0 <= c < COLS => if row[c] == 0 then 0x20 else row[c])))
  }

  /** The lines of rows a to b - 1 that have text. */
  function Lines(s: Screen, a: nat, b: nat): Text
    requires a <= b <= ROWS
    decreases b
  {
    if a == b then []
    else Lines(s, a, b - 1) + if Line(s[b - 1]) == [] then [] else [Line(s[b - 1])]
  }

  function TextOf(s: Screen): Text { Lines(s, 0, ROWS) }

  /** The first text is in the upper half of the screen. */
  predicate IsTop(s: Screen) {
    exists r: RowNo :: r < ROWS / 2 && Line(s[r]) != []
  }

  method RenderRow(row: Row) returns (line: seq<Rune>)
    ensures line == Line(row)
  {
    var cells: seq<Rune> := [];
    for c := 0 to COLS
      invariant |cells| == c && forall i :: 0 <= i < c ==> cells[i] == if row[i] == 0 then 0x20 else row[i]
    {
      cells := cells + [if row[c] == 0 then 0x20 else row[c]];
    }
    assert cells == seq(COLS, c requires 0 <= c < COLS => if row[c] == 0 then 0x20 else row[c]);
    line := TrimRight(TrimLeft(cells));
  }

  method Render(s: Screen) returns (lines: Text, top: bool)
    ensures lines == TextOf(s) && top == IsTop(s)
  {
    hide Line;
    lines := [];
    var first := -1;
    for r := 0 to ROWS
      invariant lines == Lines(s, 0, r)
      invariant -1 <= first < r
      invariant first >= 0 ==> Line(s[first]) != []
      invariant forall q: RowNo :: q < (if first < 0 then r else first) ==> Line(s[q]) == []
    {
      var line := RenderRow(s[r]);
      if line == [] {
        continue;
      }
      if first < 0 {
        first := r;
      }
      lines := lines + [line];
    }
    top := 0 <= first < ROWS / 2;
  }

  // ----- the cue on screen -----

  /** The cue on screen if open, those that ended, and when typed text was last shown. */
  datatype Display = Display(open: bool, cue: Cue, done: seq<Cue>, typedAt: int, typed: bool, waiting: bool) {
    function End(pts: int): Display {
      if !open then this
      else if Reorder.PtsDelta(pts, cue.start) <= 0 then this.(open := false)
      else this.(open := false, cue := cue.(end := pts), done := done + [cue.(end := pts)])
    }

    function Show(s: Screen, pts: int): Display {
      var d := this.(waiting := false);
      if open && TextOf(s) == cue.text then d
      else if TextOf(s) == [] then d.End(pts)
      else d.End(pts).(open := true, cue := Cue(pts, 0, TextOf(s), IsTop(s)))
    }

    predicate Soon(pts: int) {
      0 <= Reorder.PtsDelta(pts, typedAt) < SHOWN_EVERY
    }

    function Touch(mode: Mode, s: Screen, pts: int): Display {
      if mode.PopOn? || waiting then this
      else if typed && Soon(pts) then this.(waiting := true)
      else this.(typed := true, typedAt := pts).Show(s, pts)
    }

    function Due(s: Screen, pts: int): Display {
      if waiting && !Soon(pts) then this.(typedAt := pts).Show(s, pts) else this
    }

    /** What misc command b2, obeyed by m, does to the display. */
    function Misc(m: Memory, b2: Byte, pts: int): Display {
      if b2 == 0x21 then (if m.col > 0 then Touch(m.mode, m.Misc(b2).shown, pts) else this)
      else if b2 == 0x24 then Touch(m.mode, m.Misc(b2).shown, pts)
      else if 0x25 <= b2 <= 0x27 then (if m.mode.RollUp? then this else Show(m.Misc(b2).shown, pts)).(typed := false)
      else if b2 == 0x29 then this.(typed := false)
      else if b2 == 0x2c || b2 == 0x2f then Show(m.Misc(b2).shown, pts)
      else if b2 == 0x2d && m.mode.RollUp? then
        Show(m.shown, pts).Show(m.Misc(b2).shown, pts).(typed := false)
      else this
    }

    predicate Puts(m: Memory, b1: Byte, b2: Byte) {
      !m.text && (b1 == 0x11 || b1 == 0x12 || b1 == 0x13) && 0x20 <= b2 <= 0x3f
    }

    function Control(m: Memory, b1: Byte, b2: Byte, pts: int): Display
      requires 0x10 <= b1 <= 0x17
    {
      if (b1 == 0x14 || b1 == 0x15) && 0x20 <= b2 <= 0x2f then Misc(m, b2, pts)
      else if Puts(m, b1, b2) then Touch(m.mode, m.Control(b1, b2).shown, pts)
      else this
    }
  }

  datatype Station = Station(state: State, out: Display) {
    function PairOut(pts: int, p: Pair): Display {
      var m := state.mem;
      if p == NULL_PAIR then out
      else if IsControl(p) then
        var d := if out.waiting then out.Show(m.shown, pts) else out;
        if state.last == p || ChannelOf(p) != 1 then d
        else d.Control(m.(channel := 1), WithoutChannel(p.b1), p.b2, pts)
      else if m.channel != 1 || m.text || !IsText(p) then out
      else out.Touch(m.mode, m.Type(p).shown, pts)
    }

    function Take(pts: int, p: Pair): Station {
      Station(state.Step(p), PairOut(pts, p))
    }

    function TakeAll(pts: int, pairs: seq<Pair>): Station
      decreases pairs
    {
      if pairs == [] then this else Take(pts, pairs[0]).TakeAll(pts, pairs[1..])
    }

    function Feed(pts: int, pairs: seq<Pair>): Station {
      this.(out := out.Due(state.mem.shown, pts)).TakeAll(pts, pairs)
    }
  }

  /** A picture's bytes, two by two; an odd one out is ignored. */
  function PairsOf(bytes: seq<Byte>): seq<Pair> {
    if |bytes| < 2 then [] else [Pair(bytes[0], bytes[1])] + PairsOf(bytes[2..])
  }

  /** One picture's pairs and when it shows. */
  datatype Picture608 = Picture608(pts: int, pairs: seq<Pair>)

  function FeedAll(st: Station, pictures: seq<Picture608>): Station
    decreases pictures
  {
    if pictures == [] then st else FeedAll(st.Feed(pictures[0].pts, pictures[0].pairs), pictures[1..])
  }

  // ----- finished cues are in order -----

  predicate CuesOrdered(cues: seq<Cue>) {
    && (forall i :: 0 <= i < |cues| ==> cues[i].start < cues[i].end)
    && (forall i, j :: 0 <= i < j < |cues| ==> cues[i].end <= cues[j].start)
  }

  /** Ended cues are positive, in order and apart, and the one on screen starts after them, by now. */
  predicate InOrder(d: Display, now: int) {
    && CuesOrdered(d.done)
    && (d.open ==> d.cue.start <= now)
    && forall i :: 0 <= i < |d.done| ==> d.done[i].end <= (if d.open then d.cue.start else now)
  }

  lemma EndInOrder(d: Display, now: int, pts: int)
    requires InOrder(d, now) && now <= pts
    ensures InOrder(d.End(pts), pts) && !d.End(pts).open
  {
  }

  lemma ShowInOrder(d: Display, now: int, s: Screen, pts: int)
    requires InOrder(d, now) && now <= pts
    ensures InOrder(d.Show(s, pts), pts)
  {
    hide Display.End, CuesOrdered, TextOf, IsTop;
    EndInOrder(d.(waiting := false), now, pts);
  }

  lemma TouchInOrder(d: Display, now: int, mode: Mode, s: Screen, pts: int)
    requires InOrder(d, now) && now <= pts
    ensures InOrder(d.Touch(mode, s, pts), pts)
  {
    hide Display.Show, CuesOrdered;
    ShowInOrder(d.(typed := true, typedAt := pts), now, s, pts);
  }

  lemma ControlInOrder(d: Display, now: int, m: Memory, b1: Byte, b2: Byte, pts: int)
    requires InOrder(d, now) && now <= pts && 0x10 <= b1 <= 0x17
    ensures InOrder(d.Control(m, b1, b2, pts), pts)
  {
    hide Display.Show, CuesOrdered, Display.Touch, Memory.Control, Memory.Misc;
    ShowInOrder(d, now, m.Misc(b2).shown, pts);
    ShowInOrder(d, now, m.shown, pts);
    ShowInOrder(d.Show(m.shown, pts), pts, m.Misc(b2).shown, pts);
    TouchInOrder(d, now, m.mode, m.Misc(b2).shown, pts);
    TouchInOrder(d, now, m.mode, m.Control(b1, b2).shown, pts);
  }

  lemma TakeInOrder(st: Station, now: int, pts: int, p: Pair)
    requires InOrder(st.out, now) && now <= pts
    ensures InOrder(st.Take(pts, p).out, pts)
  {
    hide Display.Show, CuesOrdered, Display.Touch, Display.Control, State.Step;
    var m := st.state.mem;
    ShowInOrder(st.out, now, m.shown, pts);
    TouchInOrder(st.out, now, m.mode, m.Type(p).shown, pts);
    if IsControl(p) {
      var d := if st.out.waiting then st.out.Show(m.shown, pts) else st.out;
      ControlInOrder(d, pts, m.(channel := 1), WithoutChannel(p.b1), p.b2, pts);
    }
  }

  lemma {:induction false} TakeAllInOrder(st: Station, pts: int, pairs: seq<Pair>)
    requires InOrder(st.out, pts)
    ensures InOrder(st.TakeAll(pts, pairs).out, pts)
    decreases pairs
  {
    hide Station.Take, InOrder;
    if pairs != [] {
      TakeInOrder(st, pts, pts, pairs[0]);
      TakeAllInOrder(st.Take(pts, pairs[0]), pts, pairs[1..]);
    }
  }

  predicate Rising(now: int, pictures: seq<Picture608>)
    decreases pictures
  {
    pictures == [] || (now <= pictures[0].pts && Rising(pictures[0].pts, pictures[1..]))
  }

  function LastPts(now: int, pictures: seq<Picture608>): int {
    if pictures == [] then now else pictures[|pictures| - 1].pts
  }

  /** However pictures with rising times are captioned, the cues come out positive, in order and apart. */
  lemma {:induction false} CuesComeInOrder(st: Station, now: int, pictures: seq<Picture608>)
    requires InOrder(st.out, now) && Rising(now, pictures)
    ensures InOrder(FeedAll(st, pictures).out, LastPts(now, pictures))
    ensures CuesOrdered(FeedAll(st, pictures).out.done)
    decreases pictures
  {
    hide Station.TakeAll, Display.Show, CuesOrdered;
    if pictures != [] {
      var pic := pictures[0];
      ShowInOrder(st.out.(typedAt := pic.pts), now, st.state.mem.shown, pic.pts);
      TakeAllInOrder(st.(out := st.out.Due(st.state.mem.shown, pic.pts)), pic.pts, pic.pairs);
      CuesComeInOrder(st.Feed(pic.pts, pic.pairs), pic.pts, pictures[1..]);
    }
  }

  // ----- the cue on screen is the screen's text -----

  /** The display tells what s shows, unless typed text waits to be shown. */
  predicate Tells(d: Display, s: Screen) {
    d.waiting || TextOf(s) == if d.open then d.cue.text else []
  }

  lemma ShowTells(d: Display, s: Screen, pts: int)
    ensures Tells(d.Show(s, pts), s) && !d.Show(s, pts).waiting
  {
    hide TextOf, IsTop;
  }

  lemma TouchTells(d: Display, mode: Mode, before: Screen, s: Screen, pts: int)
    requires Tells(d, before) && (mode.PopOn? ==> s == before)
    ensures Tells(d.Touch(mode, s, pts), s)
  {
    hide Display.Show, TextOf;
    ShowTells(d.(typed := true, typedAt := pts), s, pts);
  }

  /** Moving the roll-up window to end at row to would leave out a row that has text. */
  predicate Drops(m: Memory, to: RowNo) {
    exists r: RowNo :: Line(m.shown[r]) != [] && !(m.row - m.depth < r <= m.row && r + to - m.row >= 0)
  }

  lemma {:induction false} LinesConcat(s: Screen, a: nat, b: nat, c: nat)
    requires a <= b <= c <= ROWS
    ensures Lines(s, a, c) == Lines(s, a, b) + Lines(s, b, c)
    decreases c
  {
    hide Line;
    if b < c {
      LinesConcat(s, a, b, c - 1);
    }
  }

  lemma {:induction false} NoLines(s: Screen, a: nat, b: nat)
    requires a <= b <= ROWS
    ensures Lines(s, a, b) == [] <==> forall r: RowNo :: a <= r < b ==> Line(s[r]) == []
    decreases b
  {
    hide Line;
    if a < b {
      NoLines(s, a, b - 1);
      var before := Lines(s, a, b - 1);
      assert Lines(s, a, b) == before + if Line(s[b - 1]) == [] then [] else [Line(s[b - 1])];
      assert Lines(s, a, b) == [] <==> before == [] && Line(s[b - 1]) == [];
    }
  }

  lemma {:induction false} ShiftedLines(s: Screen, t: Screen, a: nat, b: nat, shift: int)
    requires a <= b <= ROWS && 0 <= a + shift && b + shift <= ROWS
    requires forall r: RowNo :: a <= r < b ==> t[r + shift] == s[r]
    ensures Lines(t, a + shift, b + shift) == Lines(s, a, b)
    decreases b
  {
    hide Line;
    if a < b {
      ShiftedLines(s, t, a, b - 1, shift);
    }
  }

  lemma BlankLine()
    ensures Line(BlankRow()) == []
  {
    var spaces: seq<Rune> := seq(COLS, _ => 0x20);
    assert spaces == seq(COLS, c requires 0 <= c < COLS => if BlankRow()[c] == 0 then 0x20 else BlankRow()[c]);
    SpacesTrim(spaces);
  }

  lemma {:induction false} SpacesTrim(s: seq<Rune>)
    requires forall i :: 0 <= i < |s| ==> IsSpace(s[i])
    ensures TrimLeft(s) == []
  {
    if s != [] {
      SpacesTrim(s[1..]);
    }
  }

  /** The rows of the window that stay on the screen run from this one to the cursor's. */
  function FirstKept(m: Memory, to: RowNo): (lo: nat)
    ensures lo <= m.row + 1 && lo + to - m.row >= 0
  {
    var top := if m.row - m.depth + 1 > 0 then m.row - m.depth + 1 else 0;
    if top < m.row - to then m.row - to else top
  }

  lemma MovedLines(m: Memory, to: RowNo)
    ensures TextOf(Moved(m.shown, m.row, to, m.depth)) == Lines(m.shown, FirstKept(m, to), m.row + 1)
  {
    hide Line, BlankRow, Lines;
    var s, t := m.shown, Moved(m.shown, m.row, to, m.depth);
    var shift, lo, hi := to - m.row, FirstKept(m, to), m.row + 1;
    BlankLine();
    assert forall r: RowNo :: lo <= r < hi ==> t[r + shift] == s[r];
    ShiftedLines(s, t, lo, hi, shift);
    assert forall r: RowNo :: !(lo + shift <= r < hi + shift) ==> t[r] == BlankRow();
    NoLines(t, 0, lo + shift);
    NoLines(t, hi + shift, ROWS);
    LinesConcat(t, 0, lo + shift, ROWS);
    LinesConcat(t, lo + shift, hi + shift, ROWS);
  }

  /** Leaving rows out of the text changes it exactly when one of them has some. */
  lemma PartOfText(s: Screen, lo: nat, hi: nat)
    requires lo <= hi <= ROWS
    ensures TextOf(s) == Lines(s, lo, hi) <==> forall r: RowNo :: !(lo <= r < hi) ==> Line(s[r]) == []
  {
    hide Line, Lines;
    LinesConcat(s, 0, lo, ROWS);
    LinesConcat(s, lo, hi, ROWS);
    NoLines(s, 0, lo);
    NoLines(s, hi, ROWS);
    assert |TextOf(s)| == |Lines(s, 0, lo)| + |Lines(s, lo, hi)| + |Lines(s, hi, ROWS)|;
  }

  lemma MovedText(m: Memory, to: RowNo)
    ensures TextOf(Moved(m.shown, m.row, to, m.depth)) == TextOf(m.shown) <==> !Drops(m, to)
  {
    hide Line, BlankRow, Lines, TextOf, Moved;
    MovedLines(m, to);
    PartOfText(m.shown, FirstKept(m, to), m.row + 1);
  }

  /** The pair is a preamble that moves the roll-up window and loses text off it. */
  predicate LosesText(m: Memory, p: Pair) {
    && IsControl(p) && ChannelOf(p) == 1 && 0x40 <= p.b2 <= 0x7f && m.mode.RollUp?
    && PreambleRow(p.b1, p.b2) != m.row && Drops(m, PreambleRow(p.b1, p.b2))
  }

  /** A preamble changes what the screen says exactly when it moves the roll-up window and a row with text leaves it. */
  lemma PreambleKeepsText(m: Memory, p: Pair)
    requires IsControl(p) && ChannelOf(p) == 1 && 0x40 <= p.b2 <= 0x7f
    ensures TextOf(m.Execute(p).shown) == TextOf(m.shown) <==> !LosesText(m, p)
  {
    hide TextOf, PreambleRow, PreambleCol, Moved, Drops;
    MovedText(m, PreambleRow(p.b1, p.b2));
  }

  lemma ControlTells(d: Display, m: Memory, b1: Byte, b2: Byte, pts: int)
    requires Tells(d, m.shown) && 0x10 <= b1 <= 0x17 && !(0x40 <= b2 <= 0x7f)
    ensures Tells(d.Control(m, b1, b2, pts), m.Control(b1, b2).shown)
  {
    hide Display.Show, Display.Touch, Scrolled, TextOf;
    var s := m.Control(b1, b2).shown;
    ShowTells(d, s, pts);
    ShowTells(d.Show(m.shown, pts), s, pts);
    if m.mode.PopOn? ==> s == m.shown {
      TouchTells(d, m.mode, m.shown, s, pts);
    }
  }

  lemma PreambleSilent(d: Display, m: Memory, b1: Byte, b2: Byte, pts: int)
    requires 0x10 <= b1 <= 0x17 && 0x40 <= b2 <= 0x7f
    ensures d.Control(m, b1, b2, pts) == d
  {
  }

  lemma TakeTells(st: Station, pts: int, p: Pair)
    requires Tells(st.out, st.state.mem.shown)
    requires st.state.last != p ==> !LosesText(st.state.mem, p)
    ensures Tells(st.Take(pts, p).out, st.Take(pts, p).state.mem.shown)
  {
    hide Display.Show, Display.Touch, Display.Control, TextOf, Memory.Control, LosesText;
    var m := st.state.mem;
    if IsControl(p) {
      var d := if st.out.waiting then st.out.Show(m.shown, pts) else st.out;
      ShowTells(st.out, m.shown, pts);
      if st.state.last != p && ChannelOf(p) == 1 {
        var n := m.(channel := 1);
        if 0x40 <= p.b2 <= 0x7f {
          PreambleKeepsText(m, p);
          PreambleSilent(d, n, WithoutChannel(p.b1), p.b2, pts);
        } else {
          ControlTells(d, n, WithoutChannel(p.b1), p.b2, pts);
        }
      }
    } else {
      TouchTells(st.out, m.mode, m.shown, m.Type(p).shown, pts);
    }
  }

  /** A preamble leaves the cue on screen telling something else exactly when it moves text off the window. */
  lemma PreambleTells(st: Station, pts: int, p: Pair)
    requires Tells(st.out, st.state.mem.shown) && st.state.last != p
    requires IsControl(p) && ChannelOf(p) == 1 && 0x40 <= p.b2 <= 0x7f
    ensures Tells(st.Take(pts, p).out, st.Take(pts, p).state.mem.shown) <==> !LosesText(st.state.mem, p)
  {
    hide Display.Show, Display.Touch, Display.Control, TextOf, Memory.Control, LosesText;
    var m := st.state.mem;
    var d := if st.out.waiting then st.out.Show(m.shown, pts) else st.out;
    ShowTells(st.out, m.shown, pts);
    PreambleKeepsText(m, p);
    PreambleSilent(d, m.(channel := 1), WithoutChannel(p.b1), p.b2, pts);
  }

  /** No pair of the picture moves text off the roll-up window. */
  predicate KeepsText(st: Station, pts: int, pairs: seq<Pair>)
    decreases pairs
  {
    pairs == [] || (
      && (st.state.last != pairs[0] ==> !LosesText(st.state.mem, pairs[0]))
      && KeepsText(st.Take(pts, pairs[0]), pts, pairs[1..]))
  }

  predicate AllKeepText(st: Station, pictures: seq<Picture608>)
    decreases pictures
  {
    pictures == [] || (
      && KeepsText(st.(out := st.out.Due(st.state.mem.shown, pictures[0].pts)), pictures[0].pts, pictures[0].pairs)
      && AllKeepText(st.Feed(pictures[0].pts, pictures[0].pairs), pictures[1..]))
  }

  lemma {:induction false} TakeAllTells(st: Station, pts: int, pairs: seq<Pair>)
    requires Tells(st.out, st.state.mem.shown) && KeepsText(st, pts, pairs)
    ensures Tells(st.TakeAll(pts, pairs).out, st.TakeAll(pts, pairs).state.mem.shown)
    decreases pairs
  {
    hide Station.Take, Tells, LosesText;
    if pairs != [] {
      TakeTells(st, pts, pairs[0]);
      TakeAllTells(st.Take(pts, pairs[0]), pts, pairs[1..]);
    }
  }

  lemma DueTells(st: Station, pts: int)
    requires Tells(st.out, st.state.mem.shown)
    ensures var d := st.out.Due(st.state.mem.shown, pts);
            Tells(d, st.state.mem.shown) && Timely(d, pts)
  {
    hide Display.Show, TextOf;
    ShowTells(st.out.(typedAt := pts), st.state.mem.shown, pts);
  }

  /** Typed text that waits was held back by a showing less than shownEvery ago. */
  predicate Timely(d: Display, pts: int) {
    d.waiting ==> 0 <= Reorder.PtsDelta(pts, d.typedAt) < 18_000
  }

  /** Within a fifth of a second of the last showing of typed text, more of it changes no cue. */
  lemma TypedTextHeldBack(d: Display, mode: Mode, s: Screen, pts: int)
    requires d.typed && 0 <= Reorder.PtsDelta(pts, d.typedAt) < 18_000
    ensures d.Touch(mode, s, pts) == d.(waiting := d.waiting || !mode.PopOn?)
    ensures d.Due(s, pts) == d
  {
  }

  lemma TouchTimely(d: Display, mode: Mode, s: Screen, pts: int)
    requires Timely(d, pts)
    ensures Timely(d.Touch(mode, s, pts), pts)
  {
    hide Display.Show;
    ShowTells(d.(typed := true, typedAt := pts), s, pts);
  }

  lemma ControlTimely(d: Display, m: Memory, b1: Byte, b2: Byte, pts: int)
    requires Timely(d, pts) && 0x10 <= b1 <= 0x17
    ensures Timely(d.Control(m, b1, b2, pts), pts)
  {
    hide Display.Show, Display.Touch, Reorder.PtsDelta, Memory.Misc, Memory.Control, Tells;
    var s := m.Misc(b2).shown;
    ShowTells(d, s, pts);
    ShowTells(d.Show(m.shown, pts), s, pts);
    TouchTimely(d, m.mode, s, pts);
    TouchTimely(d, m.mode, m.Control(b1, b2).shown, pts);
  }

  lemma TakeTimely(st: Station, pts: int, p: Pair)
    requires Timely(st.out, pts)
    ensures Timely(st.Take(pts, p).out, pts)
  {
    hide Display.Show, Display.Touch, Display.Control, State.Step, Display.Soon, Tells, Memory.Type, ChannelOf;
    var m := st.state.mem;
    ShowTells(st.out, m.shown, pts);
    TouchTimely(st.out, m.mode, m.Type(p).shown, pts);
    if IsControl(p) {
      var d := if st.out.waiting then st.out.Show(m.shown, pts) else st.out;
      ControlTimely(d, m.(channel := 1), WithoutChannel(p.b1), p.b2, pts);
    }
  }

  lemma {:induction false} WaitsBriefly(st: Station, pts: int, pairs: seq<Pair>)
    requires Timely(st.out, pts)
    ensures Timely(st.TakeAll(pts, pairs).out, pts)
    decreases pairs
  {
    hide Station.Take, Timely;
    if pairs != [] {
      TakeTimely(st, pts, pairs[0]);
      WaitsBriefly(st.Take(pts, pairs[0]), pts, pairs[1..]);
    }
  }

  /**
   * After every picture of any run that moves no text off the roll-up window, the cue on screen is the screen's text,
   * or some of it was typed within shownEvery of the last typed text shown.
   */
  lemma {:induction false} CaptionFollowsScreen(st: Station, pictures: seq<Picture608>)
    requires Tells(st.out, st.state.mem.shown) && AllKeepText(st, pictures)
    ensures var end := FeedAll(st, pictures);
            && Tells(end.out, end.state.mem.shown)
            && (pictures != [] ==> Timely(end.out, LastPts(0, pictures)))
    decreases pictures
  {
    hide Station.TakeAll, Tells, KeepsText, Timely, Display.Due;
    if pictures != [] {
      var pts, pairs := pictures[0].pts, pictures[0].pairs;
      DueTells(st, pts);
      var due := st.(out := st.out.Due(st.state.mem.shown, pts));
      TakeAllTells(due, pts, pairs);
      WaitsBriefly(due, pts, pairs);
      CaptionFollowsScreen(st.Feed(pts, pairs), pictures[1..]);
    }
  }

  /** Nothing shown, nothing typed and nothing loaded: what a decoder starts from. */
  predicate IsNew(st: Station) {
    && st.state == State(START, NULL_PAIR)
    && !st.out.open && st.out.done == [] && !st.out.waiting && !st.out.typed
  }

  lemma BlankText()
    ensures TextOf(Blank()) == []
  {
    hide Line, BlankRow;
    BlankLine();
    NoLines(Blank(), 0, ROWS);
  }

  /** From a new decoder on: the cues come in order, and the one on screen follows the screen. */
  lemma FromTheStart(st: Station, pictures: seq<Picture608>)
    requires IsNew(st)
    ensures pictures != [] && Rising(pictures[0].pts, pictures) ==> CuesOrdered(FeedAll(st, pictures).out.done)
    ensures AllKeepText(st, pictures) ==>
      var end := FeedAll(st, pictures);
      Tells(end.out, end.state.mem.shown) && (pictures != [] ==> Timely(end.out, LastPts(0, pictures)))
  {
    hide CuesOrdered, AllKeepText, TextOf, FeedAll;
    BlankText();
    assert CuesOrdered([]) by { NoCues(); }
    if pictures != [] && Rising(pictures[0].pts, pictures) {
      CuesComeInOrder(st, pictures[0].pts, pictures);
    }
    if AllKeepText(st, pictures) {
      CaptionFollowsScreen(st, pictures);
    }
  }

  lemma {:induction false} TrimmedStart(s: seq<Rune>, c: nat)
    requires c < |s| && !IsSpace(s[c])
    ensures TrimLeft(s) != [] && !IsSpace(TrimLeft(s)[0])
  {
    if IsSpace(s[0]) {
      TrimmedStart(s[1..], c - 1);
    }
  }

  lemma {:induction false} TrimmedEnd(s: seq<Rune>)
    requires s != [] && !IsSpace(s[0])
    ensures TrimRight(s) != []
  {
    if IsSpace(s[|s| - 1]) {
      TrimmedEnd(s[..|s| - 1]);
    }
  }

  /** A row with a character has text. */
  lemma CharacterIsText(row: Row, c: ColNo)
    requires row[c] != 0 && !IsSpace(row[c])
    ensures Line(row) != []
  {
    var cells: seq<Rune> := seq(COLS, c requires 0 <= c < COLS => if row[c] == 0 then 0x20 else row[c]);
    TrimmedStart(cells, c);
    TrimmedEnd(TrimLeft(cells));
  }

  const ROLL_UP_2 := Pair(0x14, 0x25)
  const LETTER_A := Pair(0x41, 0)
  const RETURN := Pair(0x14, 0x2d)
  const LETTER_B := Pair(0x42, 0)
  const TOP_ROW := Pair(0x11, 0x40)

  /** A in the row above the base row, B in the base row, two rows rolling up. */
  lemma TwoRows(m: Memory)
    requires m == ExecuteAll(START, [ROLL_UP_2, LETTER_A, RETURN, LETTER_B])
    ensures m.mode.RollUp? && m.row == ROWS - 1 && m.depth == 2 && m.shown[ROWS - 2][0] == 0x41
  {
    hide Blank;
    var a := START.Execute(ROLL_UP_2);
    assert a == START.StartRollUp(2);
    var b := a.Execute(LETTER_A);
    assert b == a.Put(0x41);
    var c := b.Execute(RETURN);
    assert c == b.Misc(0x2d);
    var d := c.Execute(LETTER_B);
    assert d == c.Put(0x42);
    assert c.shown[ROWS - 2] == b.shown[ROWS - 1] && d.shown[ROWS - 2] == c.shown[ROWS - 2];
    hide Memory.Execute;
    FourExecuted(START, ROLL_UP_2, LETTER_A, RETURN, LETTER_B);
  }

  lemma FourExecuted(m: Memory, p: Pair, q: Pair, r: Pair, s: Pair)
    ensures ExecuteAll(m, [p, q, r, s]) == m.Execute(p).Execute(q).Execute(r).Execute(s)
  {
    hide Memory.Execute;
    assert [p, q, r, s][1..] == [q, r, s] && [q, r, s][1..] == [r, s] && [r, s][1..] == [s] && [s][1..] == [];
    var n := m.Execute(p).Execute(q).Execute(r);
    assert ExecuteAll(n, [s]) == ExecuteAll(n.Execute(s), []);
    assert ExecuteAll(m.Execute(p).Execute(q), [r, s]) == ExecuteAll(n, [s]);
  }

  /**
    Two rows of text rolled up and then moved to the top row: the upper one is
    gone from the screen, and the cue of a new decoder goes on telling both.
  */
  lemma PreambleCanLeaveStaleCue(st: Station, pts: int)
    requires IsNew(st)
    ensures var end := st.TakeAll(pts, [ROLL_UP_2, LETTER_A, RETURN, LETTER_B, TOP_ROW]);
            !Tells(end.out, end.state.mem.shown)
  {
    var typed := [ROLL_UP_2, LETTER_A, RETURN, LETTER_B];
    var before := st.TakeAll(pts, typed);
    BlankText();
    hide TextOf, Memory.Execute, Station.PairOut, LosesText, Blank;
    FourKeepText(st, pts);
    TakeAllTells(st, pts, typed);
    TakeAllState(st, pts, typed);
    assert before.state.mem == ExecuteAll(START, typed) && before.state.last == NULL_PAIR by { TypedState(); }
    TakeAllThen(st, pts, typed, TOP_ROW);
    assert typed + [TOP_ROW] == [ROLL_UP_2, LETTER_A, RETURN, LETTER_B, TOP_ROW];
    TwoRows(before.state.mem);
    TopRowLosesText(before.state.mem);
    PreambleTells(before, pts, TOP_ROW);
  }

  lemma TopRowLosesText(m: Memory)
    requires m.mode.RollUp? && m.row == ROWS - 1 && m.depth == 2 && m.shown[ROWS - 2][0] == 0x41
    ensures LosesText(m, TOP_ROW)
  {
    CharacterIsText(m.shown[ROWS - 2], 0);
    hide Line;
    var r: RowNo := ROWS - 2;
    assert Line(m.shown[r]) != [] && r + 0 - m.row < 0;
  }

  lemma TypedState()
    ensures Run(State(START, NULL_PAIR), [ROLL_UP_2, LETTER_A, RETURN, LETTER_B]).last == NULL_PAIR
    ensures Run(State(START, NULL_PAIR), [ROLL_UP_2, LETTER_A, RETURN, LETTER_B]).mem
      == ExecuteAll(START, [ROLL_UP_2, LETTER_A, RETURN, LETTER_B])
  {
    hide Memory.Execute;
    var s := State(START, NULL_PAIR);
    assert [ROLL_UP_2, LETTER_A, RETURN, LETTER_B][1..] == [LETTER_A, RETURN, LETTER_B];
    assert [LETTER_A, RETURN, LETTER_B][1..] == [RETURN, LETTER_B];
    assert [RETURN, LETTER_B][1..] == [LETTER_B] && [LETTER_B][1..] == [];
    var t := s.Step(ROLL_UP_2).Step(LETTER_A);
    assert t == State(START.Execute(ROLL_UP_2).Execute(LETTER_A), NULL_PAIR);
    var u := t.Step(RETURN).Step(LETTER_B);
    assert u == State(t.mem.Execute(RETURN).Execute(LETTER_B), NULL_PAIR);
    assert Run(t.Step(RETURN), [LETTER_B]) == Run(u, []) == u;
    assert Run(t, [RETURN, LETTER_B]) == u;
    FourExecuted(START, ROLL_UP_2, LETTER_A, RETURN, LETTER_B);
  }

  lemma FourKeepText(st: Station, pts: int)
    ensures KeepsText(st, pts, [ROLL_UP_2, LETTER_A, RETURN, LETTER_B])
  {
    hide Station.Take;
    assert [ROLL_UP_2, LETTER_A, RETURN, LETTER_B][1..] == [LETTER_A, RETURN, LETTER_B];
    assert [LETTER_A, RETURN, LETTER_B][1..] == [RETURN, LETTER_B];
    assert [RETURN, LETTER_B][1..] == [LETTER_B] && [LETTER_B][1..] == [];
    var c := st.Take(pts, ROLL_UP_2).Take(pts, LETTER_A).Take(pts, RETURN);
    assert KeepsText(c, pts, [LETTER_B]);
    assert KeepsText(st.Take(pts, ROLL_UP_2).Take(pts, LETTER_A), pts, [RETURN, LETTER_B]);
  }

  lemma {:induction false} TakeAllState(st: Station, pts: int, pairs: seq<Pair>)
    ensures st.TakeAll(pts, pairs).state == Run(st.state, pairs)
    decreases pairs
  {
    hide Station.PairOut, State.Step;
    if pairs != [] {
      TakeAllState(st.Take(pts, pairs[0]), pts, pairs[1..]);
    }
  }

  lemma {:induction false} TakeAllThen(st: Station, pts: int, pairs: seq<Pair>, p: Pair)
    ensures st.TakeAll(pts, pairs + [p]) == st.TakeAll(pts, pairs).Take(pts, p)
    decreases pairs
  {
    hide Station.Take;
    if pairs == [] {
      assert pairs + [p] == [p] && [p][1..] == [];
      assert st.TakeAll(pts, [p]) == st.Take(pts, p).TakeAll(pts, []);
    } else {
      assert (pairs + [p])[1..] == pairs[1..] + [p];
      TakeAllThen(st.Take(pts, pairs[0]), pts, pairs[1..], p);
    }
  }

  lemma NoCues()
    ensures CuesOrdered([])
  {
  }

  // ----- the decoder -----

  lemma Rewritten(m: Memory, a: Row, b: Row)
    ensures m.WithRow(a).WithRow(b) == m.WithRow(b) && m.WithRow(a).Target()[m.row] == a
    ensures m.WithRow(m.Target()[m.row]) == m
  {
    assert m.Target()[m.row := m.Target()[m.row]] == m.Target();
  }

  lemma BlankCell(c: ColNo)
    ensures BlankRow()[c] == 0
  {
  }

  class Decoder {
    var shown: Screen
    var hidden: Screen
    var mode: Mode
    var depth: Depth
    var row: RowNo
    var col: ColNo
    var channel: Channel
    var text: bool
    var last: Pair
    var open: bool
    var cue: Cue
    var done: seq<Cue>
    var typedAt: int
    var typed: bool
    var waiting: bool

    ghost function Mem(): Memory
      reads this
    {
      Memory(shown, hidden, mode, depth, row, col, channel, text)
    }

    ghost function Out(): Display
      reads this
    {
      Display(open, cue, done, typedAt, typed, waiting)
    }

    ghost function View(): Station
      reads this
    {
      Station(State(Mem(), last), Out())
    }

    constructor ()
      ensures IsNew(View())
    {
      shown, hidden := Blank(), Blank();
      mode, depth, row, col, channel, text := PopOn, 3, ROWS - 1, 0, 1, false;
      last := NULL_PAIR;
      open, cue, done := false, Cue(0, 0, [], false), [];
      typedAt, typed, waiting := 0, false, false;
    }

    method Feed(pts: int, bytes: seq<Byte>)
      modifies this
      ensures View() == old(View()).Feed(pts, PairsOf(bytes))
    {
      ShowDue(pts);
      hide Station.Take, Display.Due;
      ghost var begun := View();
      var rest := bytes;
      while |rest| >= 2
        invariant View().TakeAll(pts, PairsOf(rest)) == begun.TakeAll(pts, PairsOf(bytes))
        decreases |rest|
      {
        TakePair(pts, rest[0], rest[1]);
        rest := rest[2..];
      }
    }

    /** The cues that ended since the last call. */
    method Take() returns (out: seq<Cue>)
      modifies this`done
      ensures out == old(done) && done == []
    {
      out := done;
      done := [];
    }

    method Close(pts: int)
      modifies this
      ensures View().state == old(View().state) && Out() == old(Out()).End(pts)
    {
      End(pts);
    }

    method ShowDue(pts: int)
      modifies this
      ensures View().state == old(View().state) && Out() == old(Out()).Due(shown, pts)
    {
      var soon := Soon(pts);
      if waiting && !soon {
        typedAt := pts;
        Show(pts);
      }
    }

    method Soon(pts: int) returns (soon: bool)
      ensures soon == Out().Soon(pts)
    {
      var delta := Reorder.PtsDelta(pts, typedAt);
      soon := delta >= 0 && delta < SHOWN_EVERY;
    }

    method TakePair(pts: int, b1: Byte, b2: Byte)
      modifies this
      ensures View() == old(View()).Take(pts, Pair(b1, b2))
    {
      hide Display.Show, Display.Touch, Display.Control, Memory.Control, Memory.Put, Basic;
      var p := Pair(b1, b2);
      if b1 == 0 && b2 == 0 {
        return;
      }
      if b1 >= 0x10 && b1 <= 0x1f {
        if waiting {
          Show(pts);
        }
        if last == p {
          last := NULL_PAIR;
          return;
        }
        last := p;
        channel := 1;
        if b1 / 8 % 2 == 1 {
          channel := 2;
        }
        if channel == 1 {
          Control(pts, WithoutChannel(b1), b2);
        }
        return;
      }
      last := NULL_PAIR;
      if channel != 1 || text || b1 < 0x20 {
        return;
      }
      Put(Basic(b1));
      if b2 >= 0x20 {
        Put(Basic(b2));
      }
      Touch(pts);
    }

    method Control(pts: int, b1: Byte, b2: Byte)
      requires 0x10 <= b1 <= 0x17
      modifies this
      ensures Mem() == old(Mem()).Control(b1, b2) && last == old(last)
      ensures Out() == old(Out()).Control(old(Mem()), b1, b2, pts)
    {
      hide Display.Show, Display.Touch, Memory.Misc, Display.Misc, Memory.Preamble, Memory.Put;
      if (b1 == 0x14 || b1 == 0x15) && b2 >= 0x20 && b2 <= 0x2f {
        Misc(pts, b2);
      } else if b1 == 0x17 && b2 >= 0x21 && b2 <= 0x23 {
        col := if col + (b2 - 0x20) < COLS - 1 then col + (b2 - 0x20) else COLS - 1;
      } else if b2 >= 0x40 && b2 <= 0x7f {
        Preamble(b1, b2);
      } else if text {
      } else if b1 == 0x11 && b2 >= 0x20 && b2 <= 0x2f {
        Put(0x20);
        Touch(pts);
      } else if b1 == 0x11 && b2 >= 0x30 && b2 <= 0x3f {
        Put(SPECIAL[b2 - 0x30]);
        Touch(pts);
      } else if (b1 == 0x12 || b1 == 0x13) && b2 >= 0x20 && b2 <= 0x3f {
        col := if col - 1 > 0 then col - 1 else 0;
        if b1 == 0x12 {
          Put(EXTENDED_12[b2 - 0x20]);
        } else {
          Put(EXTENDED_13[b2 - 0x20]);
        }
        Touch(pts);
      }
    }

    method Misc(pts: int, b2: Byte)
      requires 0x20 <= b2 <= 0x2f
      modifies this
      ensures Mem() == old(Mem()).Misc(b2) && last == old(last)
      ensures Out() == old(Out()).Misc(old(Mem()), b2, pts)
    {
      hide Display.Show, Display.Touch, Scrolled, Memory.StartRollUp, Memory.DeleteToEnd, Blank;
      if b2 == 0x20 {
        mode, text := PopOn, false;
      } else if b2 == 0x21 {
        if col > 0 {
          col := col - 1;
          WriteCell(col, 0);
          Touch(pts);
        }
      } else if b2 == 0x24 {
        ClearToEnd();
        Touch(pts);
      } else if 0x25 <= b2 <= 0x27 {
        StartRollUp(pts, b2 - 0x25 + 2);
      } else if b2 == 0x29 {
        mode, text := PaintOn, false;
        typed := false;
      } else if b2 == 0x2a || b2 == 0x2b {
        text := true;
      } else if b2 == 0x2c {
        shown := Blank();
        Show(pts);
      } else if b2 == 0x2d {
        CarriageReturn(pts);
      } else if b2 == 0x2e {
        hidden := Blank();
      } else if b2 == 0x2f {
        shown, hidden := hidden, shown;
        mode, text := PopOn, false;
        Show(pts);
      }
    }

    method StartRollUp(pts: int, rows: Depth)
      modifies this
      ensures Mem() == old(Mem()).StartRollUp(rows) && last == old(last)
      ensures Out() == (if old(mode).RollUp? then old(Out()) else old(Out()).Show(shown, pts)).(typed := false)
    {
      hide Display.Show, Blank;
      if mode != RollUp {
        BlankBoth(pts);
      }
      mode, text := RollUp, false;
      depth := rows;
      col := 0;
      typed := false;
    }

    method BlankBoth(pts: int)
      modifies this
      ensures Mem() == old(Mem()).(shown := Blank(), hidden := Blank(), row := ROWS - 1) && last == old(last)
      ensures Out() == old(Out()).Show(Blank(), pts)
    {
      hide Display.Show, Blank;
      shown, hidden := Blank(), Blank();
      row := ROWS - 1;
      Show(pts);
    }

    method CarriageReturn(pts: int)
      modifies this
      ensures Mem() == old(Mem()).Misc(0x2d) && last == old(last)
      ensures Out() == old(Out()).Misc(old(Mem()), 0x2d, pts)
    {
      hide Display.Show, Scrolled;
      if mode != RollUp {
        return;
      }
      Show(pts);
      Scroll();
      col := 0;
      Show(pts);
      typed := false;
    }

    /** Empties the cells from the cursor to the end of its row, one at a time. */
    method ClearToEnd()
      modifies this`shown, this`hidden
      ensures Mem() == old(Mem()).DeleteToEnd()
    {
      hide Memory.WithRow, BlankRow;
      ghost var was := Mem();
      ghost var cells := was.Target()[row];
      assert cells[..col] + BlankRow()[col..col] + cells[col..] == cells;
      Rewritten(was, cells, cells);
      for c := col to COLS
        invariant Mem() == was.WithRow(cells[..col] + BlankRow()[col..c] + cells[c..])
      {
        ghost var now: Row := cells[..col] + BlankRow()[col..c] + cells[c..];
        ghost var next: Row := cells[..col] + BlankRow()[col..c + 1] + cells[c + 1..];
        WriteCell(c, 0);
        assert next == now[c := 0] by { BlankCell(c); }
        Rewritten(was, now, next);
      }
      assert cells[..col] + BlankRow()[col..COLS] + cells[COLS..] == cells[..col] + BlankRow()[col..];
    }

    /** Moves the roll-up rows up one in place and empties the base row and the rows above. */
    method Scroll()
      modifies this`shown
      ensures shown == Scrolled(old(shown), row, depth)
    {
      hide BlankRow;
      ghost var was := shown;
      var top := if row - depth + 1 > 0 then row - depth + 1 else 0;
      for r := top to row
        invariant forall q :: 0 <= q < ROWS && !(top <= q < r) ==> shown[q] == was[q]
        invariant forall q :: top <= q < r ==> shown[q] == was[q + 1]
      {
        shown := shown[r := shown[r + 1]];
      }
      shown := shown[row := BlankRow()];
      for r := 0 to top
        invariant forall q :: 0 <= q < ROWS ==>
          shown[q] == (if q < r then BlankRow() else if q < top then was[q] else ScrolledRow(was, row, depth, q))
      {
        shown := shown[r := BlankRow()];
      }
      assert shown == Scrolled(was, row, depth);
    }

    method Preamble(b1: Byte, b2: Byte)
      requires 0x10 <= b1 <= 0x17
      modifies this`shown, this`row, this`col
      ensures Mem() == old(Mem()).Preamble(b1, b2)
    {
      hide PreambleRow;
      var to := PreambleRow(b1, b2);
      if mode == RollUp && to != row {
        var moved := Blank();
        for i := 0 to depth
          invariant forall r: RowNo ::
            moved[r] == if 0 <= to - r < i && row - (to - r) >= 0 then shown[row - (to - r)] else BlankRow()
        {
          if row - i >= 0 && to - i >= 0 {
            moved := moved[to - i := shown[row - i]];
          }
        }
        assert moved == Moved(shown, row, to, depth);
        shown := moved;
      }
      row := to;
      col := 0;
      if b2 / 16 % 2 == 1 {
        col := b2 / 2 % 8 * 4;
      }
    }

    method WriteCell(c: ColNo, r: Rune)
      modifies this`shown, this`hidden
      ensures Mem() == old(Mem()).WithRow(old(Mem()).Target()[row][c := r])
    {
      if mode == PopOn {
        var cells: Row := hidden[row];
        hidden := hidden[row := cells[c := r]];
      } else {
        var cells: Row := shown[row];
        shown := shown[row := cells[c := r]];
      }
    }

    method Put(r: Rune)
      modifies this`shown, this`hidden, this`col
      ensures Mem() == old(Mem()).Put(r)
    {
      WriteCell(col, r);
      if col < COLS - 1 {
        col := col + 1;
      }
    }

    method Touch(pts: int)
      modifies this
      ensures View().state == old(View().state) && Out() == old(Out()).Touch(mode, shown, pts)
    {
      if mode == PopOn || waiting {
        return;
      }
      var soon := Soon(pts);
      if typed && soon {
        waiting := true;
        return;
      }
      typed, typedAt := true, pts;
      Show(pts);
    }

    method Show(pts: int)
      modifies this
      ensures View().state == old(View().state) && Out() == old(Out()).Show(shown, pts)
    {
      hide TextOf, IsTop, Display.End;
      waiting := false;
      var lines, top := Render(shown);
      if open && lines == cue.text {
        return;
      }
      End(pts);
      if lines == [] {
        return;
      }
      open := true;
      cue := Cue(pts, 0, lines, top);
    }

    method End(pts: int)
      modifies this
      ensures View().state == old(View().state) && Out() == old(Out()).End(pts)
    {
      if !open {
        return;
      }
      open := false;
      if Reorder.PtsDelta(pts, cue.start) <= 0 {
        return;
      }
      cue := cue.(end := pts);
      done := done + [cue];
    }
  }
}
