/** From the sender to the cue: a caption sent is the text shown, from the command that shows it to the one that erases it. */
module CaptionDelivery {
  import opened Captions608
  import opened CaptionSender
  import opened CaptionCues
  import Reorder

  // ----- the text of a picture -----

  /** Text that a row shows as it is: some, with no space at either end. */
  predicate Bare(text: seq<Glyph>) {
    text != [] && !IsSpace(text[0].Shape()) && !IsSpace(text[|text| - 1].Shape()) &&
    forall i :: 0 <= i < |text| ==> text[i].Shape() != 0
  }

  function Spaces(n: nat): seq<Rune> { seq(n, _ => 0x20) }

  lemma {:induction false} TrimmedLeft(n: nat, s: seq<Rune>)
    requires s != [] && !IsSpace(s[0])
    ensures TrimLeft(Spaces(n) + s) == s
  {
    var t := Spaces(n) + s;
    if n == 0 {
      assert t == s;
    } else {
      assert t[0] == 0x20 && t[1..] == Spaces(n - 1) + s;
      TrimmedLeft(n - 1, s);
    }
  }

  lemma {:induction false} TrimmedRight(s: seq<Rune>, n: nat)
    requires s != [] && !IsSpace(s[|s| - 1])
    ensures TrimRight(s + Spaces(n)) == s
  {
    var t := s + Spaces(n);
    if n == 0 {
      assert t == s;
    } else {
      assert t[|t| - 1] == 0x20 && t[..|t| - 1] == s + Spaces(n - 1);
      TrimmedRight(s, n - 1);
    }
  }

  lemma TrimmedBoth(n: nat, text: seq<Rune>, m: nat)
    requires text != [] && !IsSpace(text[0]) && !IsSpace(text[|text| - 1])
    ensures TrimRight(TrimLeft(Spaces(n) + (text + Spaces(m)))) == text
  {
    hide IsSpace, TrimLeft, TrimRight, Spaces;
    assert (text + Spaces(m))[0] == text[0];
    TrimmedLeft(n, text + Spaces(m));
    TrimmedRight(text, m);
  }

  lemma BareEnds(text: seq<Glyph>)
    requires Bare(text)
    ensures var s := Shapes(text); s != [] && !IsSpace(s[0]) && !IsSpace(s[|s| - 1])
  {
    hide Glyph.Shape, IsSpace;
  }

  lemma RowText(l: CaptionSender.Line)
    requires l.Fits() && Bare(l.text)
    ensures CaptionCues.Line(l.Cells()) == Shapes(l.text)
  {
    hide CaptionSender.Line.Cells, Shapes, Spaces, TrimLeft, TrimRight, IsSpace, Bare;
    CellsShown(l);
    BareEnds(l.text);
    TrimmedBoth(4 * l.indent, Shapes(l.text), COLS - 4 * l.indent - |l.text|);
  }

  lemma CellsShown(l: CaptionSender.Line)
    requires l.Fits() && Bare(l.text)
    ensures var row := l.Cells();
            seq(COLS, c requires 0 <= c < COLS => if row[c] == 0 then 0x20 else row[c]) ==
            Spaces(4 * l.indent) + (Shapes(l.text) + Spaces(COLS - 4 * l.indent - |l.text|))
  {
    hide Glyph.Shape, IsSpace;
  }

  lemma BlankRowText()
    ensures CaptionCues.Line(BlankRow()) == []
  {
    BlankText();
    NoLines(Blank(), 0, ROWS);
    hide CaptionCues.Line, BlankRow;
    assert Blank()[0] == BlankRow();
  }

  /** From the top down, each with text. */
  ghost predicate Readable(lines: seq<CaptionSender.Line>) {
    && Proper(lines) && lines != []
    && (forall i :: 0 <= i < |lines| ==> Bare(lines[i].text))
    && forall i, j :: 0 <= i < j < |lines| ==> lines[i].row < lines[j].row
  }

  function Texts(lines: seq<CaptionSender.Line>): (t: Text)
    ensures |t| == |lines|
  {
    seq(|lines|, i requires 0 <= i < |lines| => Shapes(lines[i].text))
  }

  /** How many lines are above row b. */
  function Above(lines: seq<CaptionSender.Line>, b: nat): (k: nat)
    ensures k <= |lines|
  {
    if lines != [] && lines[0].row < b then 1 + Above(lines[1..], b) else 0
  }

  lemma {:induction false} AboveSplits(lines: seq<CaptionSender.Line>, b: nat)
    requires forall i, j :: 0 <= i < j < |lines| ==> lines[i].row < lines[j].row
    ensures forall i :: 0 <= i < |lines| ==> (lines[i].row < b <==> i < Above(lines, b))
  {
    if lines != [] {
      AboveSplits(lines[1..], b);
      forall i | 0 <= i < |lines| ensures lines[i].row < b <==> i < Above(lines, b) {
        if i > 0 {
          assert lines[i] == lines[1..][i - 1];
        }
      }
    }
  }

  lemma AboveNext(lines: seq<CaptionSender.Line>, b: nat)
    requires b > 0 && forall i, j :: 0 <= i < j < |lines| ==> lines[i].row < lines[j].row
    ensures var k := Above(lines, b - 1);
            if k < |lines| && lines[k].row == b - 1 then Above(lines, b) == k + 1
            else Above(lines, b) == k && forall i :: 0 <= i < |lines| ==> lines[i].row != b - 1
  {
    var k, n := Above(lines, b - 1), Above(lines, b);
    AboveSplits(lines, b - 1);
    AboveSplits(lines, b);
    assert n < |lines| ==> lines[n].row >= b;
    if k < n {
      assert lines[k].row < b && !(lines[k].row < b - 1);
      assert k + 1 < |lines| ==> lines[k].row < lines[k + 1].row;
    }
  }

  lemma {:induction false} LinesRead(s: Screen, lines: seq<CaptionSender.Line>, b: nat)
    requires Readable(lines) && Pictures(s, lines) && b <= ROWS
    ensures Lines(s, 0, b) == Texts(lines)[..Above(lines, b)]
    decreases b
  {
    hide CaptionCues.Line, Glyph.Shape, CaptionSender.Line.Cells, Above, Bare;
    if b == 0 {
      NoneAbove(lines);
    } else {
      LinesRead(s, lines, b - 1);
      AboveNext(lines, b);
      var k := Above(lines, b - 1);
      if k < |lines| && lines[k].row == b - 1 {
        RowText(lines[k]);
        BareShapes(lines[k].text);
        assert Texts(lines)[..k + 1] == Texts(lines)[..k] + [Shapes(lines[k].text)];
      } else {
        BlankRowText();
      }
    }
  }

  lemma BareShapes(text: seq<Glyph>)
    requires Bare(text)
    ensures Shapes(text) != []
  {
  }

  lemma NoneAbove(lines: seq<CaptionSender.Line>)
    ensures Above(lines, 0) == 0
  {
  }

  /** What is read off the screen is the lines sent, and whether the first of them is above the middle. */
  lemma PictureText(s: Screen, lines: seq<CaptionSender.Line>)
    requires Readable(lines) && Pictures(s, lines)
    ensures TextOf(s) == Texts(lines)
    ensures IsTop(s) <==> lines[0].row < 7
  {
    hide Bare, Pictures, Lines, Above, Texts, IsTop;
    LinesRead(s, lines, ROWS);
    AllAbove(lines);
    assert Texts(lines)[..|lines|] == Texts(lines);
    TopRow(s, lines);
  }

  lemma AllAbove(lines: seq<CaptionSender.Line>)
    requires lines != [] && forall i, j :: 0 <= i < j < |lines| ==> lines[i].row < lines[j].row
    ensures Above(lines, ROWS) == |lines|
  {
    AboveSplits(lines, ROWS);
    assert lines[|lines| - 1].row < ROWS;
  }

  lemma TopRow(s: Screen, lines: seq<CaptionSender.Line>)
    requires Readable(lines) && Pictures(s, lines)
    ensures IsTop(s) <==> lines[0].row < 7
  {
    BlankRowText();
    RowText(lines[0]);
    BareShapes(lines[0].text);
    hide CaptionCues.Line, Glyph.Shape, CaptionSender.Line.Cells, Bare;
    var first := lines[0].row;
    assert CaptionCues.Line(s[first]) != [];
    forall r: RowNo | r < 7 && first >= 7 ensures CaptionCues.Line(s[r]) == [] {
      assert forall i :: 0 <= i < |lines| ==> lines[i].row != r;
    }
  }

  // ----- the cue -----

  const ERASE_SHOWN := Pair(0x14, 0x2c)

  /** Loading changes no cue: the display stays as it is while nothing takes the screen. */
  lemma LoadingShowsNothing(st: Station, pts: int, p: Pair)
    requires st.state.mem.mode.PopOn? && !st.out.waiting && !TakesScreen(p)
    ensures st.Take(pts, p).out == st.out && st.Take(pts, p).state.mem.mode.PopOn?
  {
    LoadingStep(st.state.mem, p);
    hide Memory.Control, Memory.Put, Memory.Type, Display.Show, TextOf;
  }

  lemma {:induction false} LoadingAll(st: Station, pts: int, pairs: seq<Pair>)
    requires st.state.mem.mode.PopOn? && !st.out.waiting && forall i :: 0 <= i < |pairs| ==> !TakesScreen(pairs[i])
    ensures var n := st.TakeAll(pts, pairs);
            n.out == st.out && n.state == Run(st.state, pairs) && n.state.mem.mode.PopOn?
    decreases pairs
  {
    hide Station.PairOut, State.Step, TakesScreen;
    if pairs != [] {
      LoadingShowsNothing(st, pts, pairs[0]);
      LoadingAll(st.Take(pts, pairs[0]), pts, pairs[1..]);
    }
  }

  lemma {:induction false} TakeAllConcat(st: Station, pts: int, a: seq<Pair>, b: seq<Pair>)
    ensures st.TakeAll(pts, a + b) == st.TakeAll(pts, a).TakeAll(pts, b)
    decreases a
  {
    hide Station.Take;
    if a == [] {
      assert a + b == b;
    } else {
      assert (a + b)[1..] == a[1..] + b;
      TakeAllConcat(st.Take(pts, a[0]), pts, a[1..], b);
    }
  }

  lemma {:induction false} LinesLoadOnly(lines: seq<CaptionSender.Line>)
    ensures forall i :: 0 <= i < |LineCommands(lines)| ==> !TakesScreen(LineCommands(lines)[i])
  {
    hide TakesScreen;
    if lines != [] {
      var last := lines[|lines| - 1];
      LinesLoadOnly(lines[..|lines| - 1]);
      PreambleLoadsOnly(last.row, last.indent);
      TextLoadsOnly(last.text);
    }
  }

  lemma PreambleLoadsOnly(row: RowNo, indent: Indent)
    ensures !TakesScreen(IndentPreamble(row, indent, false))
  {
    ByteOne(row);
  }

  lemma {:induction false} TextLoadsOnly(text: seq<Glyph>)
    ensures forall i :: 0 <= i < |Codes(text)| ==> !TakesScreen(Codes(text)[i])
  {
    if text != [] {
      TextLoadsOnly(text[if |text| >= 2 && text[0].Basic? && text[1].Basic? then 2 else 1..]);
    }
  }

  lemma {:induction false} ArrivesOf(items: seq<Item>, p: Pair)
    requires Stream(items) && p in Arriving(items)
    ensures p in Meant(items)
  {
    var item, rest := items[0], items[1..];
    if p in item.Arriving() {
      assert p == item.pair && p in item.Meant() by {
        if item.Command? { assert Repeat(p, item.times)[0] == p; }
      }
    } else {
      ArrivesOf(rest, p);
    }
  }

  /** The body of a caption as it is loaded, without the command that shows it. */
  function Loads(lines: seq<CaptionSender.Line>): seq<Pair> { [RESUME_LOADING, ERASE_LOADED] + LineCommands(lines) }

  lemma BodyLoads(body: seq<Item>, lines: seq<CaptionSender.Line>)
    requires Stream(body) && Meant(body) == Loads(lines)
    ensures forall i :: 0 <= i < |Arriving(body)| ==> !TakesScreen(Arriving(body)[i])
  {
    LinesLoadOnly(lines);
    forall i | 0 <= i < |Arriving(body)| ensures !TakesScreen(Arriving(body)[i]) {
      ArrivesOf(body, Arriving(body)[i]);
    }
  }

  /** A command's one or two copies that arrive obey it once and change the display once. */
  lemma CommandTaken(st: Station, pts: int, p: Pair, lost: nat)
    requires IsControl(p) && ChannelOf(p) == 1 && lost <= 1 && st.state.last != p && !st.out.waiting
    requires !st.Take(pts, p).out.waiting
    ensures st.TakeAll(pts, Command(p, 1, lost).Arriving()).out == st.Take(pts, p).out
    ensures st.TakeAll(pts, Command(p, 1, lost).Arriving()).state.mem == st.state.mem.Execute(p)
    ensures st.TakeAll(pts, Command(p, 1, lost).Arriving()).state.last in {p, NULL_PAIR}
  {
    hide Memory.Execute, Display.Control;
    var one := st.Take(pts, p);
    assert one.state == State(st.state.mem.Execute(p), p);
    if lost == 1 {
      assert Command(p, 1, lost).Arriving() == [p];
      assert st.TakeAll(pts, [p]) == one.TakeAll(pts, []);
    } else {
      assert Command(p, 1, lost).Arriving() == [p, p];
      assert st.TakeAll(pts, [p, p]) == one.TakeAll(pts, [p]);
      assert one.TakeAll(pts, [p]) == one.Take(pts, p).TakeAll(pts, []);
    }
  }

  lemma EndShows(st: Station, pts: int)
    requires st.state.mem.mode.PopOn? && !st.out.waiting && st.state.last != END_OF_CAPTION
    ensures st.Take(pts, END_OF_CAPTION).out == st.out.Show(st.state.mem.hidden, pts)
  {
    hide Display.Show;
  }

  lemma EraseShows(st: Station, pts: int)
    requires !st.out.waiting && st.state.last != ERASE_SHOWN
    ensures st.Take(pts, ERASE_SHOWN).out == st.out.Show(Blank(), pts)
  {
    hide Display.Show;
  }

  lemma {:induction false} LastSeen(s: State, pairs: seq<Pair>)
    ensures Run(s, pairs).last in {s.last, NULL_PAIR} || Run(s, pairs).last in pairs
    decreases pairs
  {
    hide Memory.Execute;
    if pairs != [] {
      LastSeen(s.Step(pairs[0]), pairs[1..]);
    }
  }

  lemma LoadedPictures(m: Memory, lines: seq<CaptionSender.Line>)
    requires Proper(lines)
    ensures Pictures(ExecuteAll(m, Loads(lines)).hidden, lines)
  {
    hide Pictures, Memory.Execute;
    CaptionShows(m, lines);
    ExecuteConcat(m, Loads(lines), [END_OF_CAPTION]);
    OneExecuted(ExecuteAll(m, Loads(lines)), END_OF_CAPTION);
    Swaps(ExecuteAll(m, Loads(lines)));
  }

  ghost predicate SentWell(items: seq<Item>) {
    && Stream(items) && Apart(items)
    && forall i :: 0 <= i < |items| ==> items[i].pair != NULL_PAIR && (items[i].Command? ==> items[i].lost <= 1)
  }

  /** While a caption loads no cue changes, and at its end the hidden memory has its lines. */
  lemma CaptionLoads(st: Station, body: seq<Item>, lines: seq<CaptionSender.Line>, pts: int)
    requires st.state.mem.mode.PopOn? && st.state.last == NULL_PAIR && !st.out.waiting
    requires Proper(lines) && SentWell(body) && Meant(body) == Loads(lines)
    ensures var n := st.TakeAll(pts, Arriving(body));
            && n.out == st.out && n.state.mem.mode.PopOn? && n.state.last != END_OF_CAPTION
            && Pictures(n.state.mem.hidden, lines)
  {
    var pairs := Arriving(body);
    BodyLoads(body, lines);
    LoadingAll(st, pts, pairs);
    hide Memory.Execute, Pictures, TakesScreen;
    LastSeen(st.state, pairs);
    assert TakesScreen(END_OF_CAPTION) by { EndTakes(); }
    RedundancyWorks(st.state, body);
    LoadedPictures(st.state.mem, lines);
  }

  lemma EndTakes()
    ensures TakesScreen(END_OF_CAPTION) && IsControl(END_OF_CAPTION) && ChannelOf(END_OF_CAPTION) == 1
    ensures IsControl(ERASE_SHOWN) && ChannelOf(ERASE_SHOWN) == 1
  {
  }

  lemma Opens(d: Display, s: Screen, pts: int)
    requires !d.open && TextOf(s) != []
    ensures d.Show(s, pts).open && d.Show(s, pts).cue == Cue(pts, 0, TextOf(s), IsTop(s))
    ensures d.Show(s, pts).done == d.done && !d.Show(s, pts).waiting
  {
    hide TextOf, IsTop;
  }

  lemma Closes(d: Display, pts: int)
    requires d.open && d.cue.text != [] && Reorder.PtsDelta(pts, d.cue.start) > 0
    ensures d.Show(Blank(), pts).done == d.done + [d.cue.(end := pts)] && !d.Show(Blank(), pts).waiting
    ensures !d.Show(Blank(), pts).open
  {
    BlankText();
    hide TextOf, IsTop;
  }

  /**
    A caption sent to a new decoder, commands doubled and at most one copy of
    each lost, is one cue: the lines as they were sent, from the picture that
    carried the command to show it to the picture that carried the command to
    erase it, at the top of the screen if its first line is in the upper half.
  */
  lemma CaptionBecomesCue(st: Station, body: seq<Item>, lines: seq<CaptionSender.Line>, endLost: nat, eraseLost: nat, from: int, to: int)
    requires IsNew(st) && Readable(lines) && SentWell(body) && Meant(body) == Loads(lines)
    requires endLost <= 1 && eraseLost <= 1 && Reorder.PtsDelta(to, from) > 0
    ensures var shown := st.Feed(from, Arriving(body) + Command(END_OF_CAPTION, 1, endLost).Arriving());
            var erased := shown.Feed(to, Command(ERASE_SHOWN, 1, eraseLost).Arriving());
            && shown.out.open && shown.out.done == [] && shown.out.cue == Cue(from, 0, Texts(lines), lines[0].row < 7)
            && !erased.out.open && erased.out.done == [Cue(from, to, Texts(lines), lines[0].row < 7)]
  {
    EndTakes();
    CaptionLoads(st, body, lines, from);
    var n := st.TakeAll(from, Arriving(body));
    PictureText(n.state.mem.hidden, lines);
    hide Memory.Execute, Pictures, TextOf, IsTop, Readable, SentWell, Station.Take, Display.Show, Station.TakeAll, Meant, Loads, Texts;
    var end, erase := Command(END_OF_CAPTION, 1, endLost).Arriving(), Command(ERASE_SHOWN, 1, eraseLost).Arriving();
    TakeAllConcat(st, from, Arriving(body), end);
    EndShows(n, from);
    Opens(n.out, n.state.mem.hidden, from);
    CommandTaken(n, from, END_OF_CAPTION, endLost);
    var shown := n.TakeAll(from, end);
    EraseShows(shown, to);
    Closes(shown.out, to);
    CommandTaken(shown, to, ERASE_SHOWN, eraseLost);
  }
}
