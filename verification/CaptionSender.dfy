/** A sender of captions, from the code tables of 47 CFR section 15.119, and what the decoder shows of what it sends. */
module CaptionSender {
  import opened Captions608

  // ----- preambles -----

  /** The two bytes of a preamble for each row from the top, without attributes. */
  const ROW_CODES: seq<(Byte, Byte)> := [
    (0x11, 0x40), (0x11, 0x60), (0x12, 0x40), (0x12, 0x60), (0x15, 0x40), (0x15, 0x60), (0x16, 0x40), (0x16, 0x60),
    (0x17, 0x40), (0x17, 0x60), (0x10, 0x40), (0x13, 0x40), (0x13, 0x60), (0x14, 0x40), (0x14, 0x60)]

  type Indent = n: int | 0 <= n < 8

  /** White text from four times the indent on. */
  function IndentPreamble(row: RowNo, indent: Indent, underlined: bool): Pair {
    Pair(ROW_CODES[row].0, ROW_CODES[row].1 + 0x10 + 2 * indent + if underlined then 1 else 0)
  }

  /** Text in one of seven colors or italics, from the left edge on. */
  function StylePreamble(row: RowNo, style: Indent, underlined: bool): Pair {
    Pair(ROW_CODES[row].0, ROW_CODES[row].1 + 2 * style + if underlined then 1 else 0)
  }

  /** The cursor goes to the row and the column meant; out of roll-up nothing else changes. */
  lemma PreambleGoesThere(m: Memory, row: RowNo, indent: Indent, underlined: bool)
    ensures var n := m.Execute(IndentPreamble(row, indent, underlined));
            n.row == row && n.col == 4 * indent && (!m.mode.RollUp? ==> n == m.(row := row, col := 4 * indent, channel := 1))
    ensures var n := m.Execute(StylePreamble(row, indent, underlined));
            n.row == row && n.col == 0 && (!m.mode.RollUp? ==> n == m.(row := row, col := 0, channel := 1))
  {
    hide Memory.Execute;
    var line := if underlined then 1 else 0;
    Preambled(m, row, 0x10 + 2 * indent + line);
    Preambled(m, row, 2 * indent + line);
    assert (2 * indent + line) / 2 * 4 == 4 * indent;
  }

  lemma Preambled(m: Memory, row: RowNo, attributes: int)
    requires 0 <= attributes < 0x20
    ensures var n := m.Execute(Pair(ROW_CODES[row].0, ROW_CODES[row].1 + attributes));
            var col := if attributes < 0x10 then 0 else (attributes - 0x10) / 2 * 4;
            n.row == row && n.col == col && (!m.mode.RollUp? ==> n == m.(row := row, col := col, channel := 1))
  {
    hide Moved, Memory.Misc;
    PreambleDecoded(row, attributes);
    ByteOne(row);
    hide PreambleRow, PreambleCol, ROW_CODES;
  }

  lemma ByteOne(row: RowNo)
    ensures var b1 := ROW_CODES[row].0; 0x10 <= b1 <= 0x17 && b1 / 8 % 2 == 0
    ensures ROW_CODES[row].1 in {0x40, 0x60}
  {
  }

  lemma PreambleDecoded(row: RowNo, attributes: int)
    requires 0 <= attributes < 0x20
    ensures PreambleRow(ROW_CODES[row].0, ROW_CODES[row].1 + attributes) == row
    ensures PreambleCol(ROW_CODES[row].1 + attributes) == if attributes < 0x10 then 0 else (attributes - 0x10) / 2 * 4
  {
    var b2 := ROW_CODES[row].1 + attributes;
    assert b2 / 32 == ROW_CODES[row].1 / 32;
  }

  // ----- characters -----

  /** The characters of codes 0x20 to 0x3f, 0x40 to 0x5f and 0x60 to 0x7f. */
  const MARKS_AND_DIGITS := " !\"#$%&’()á+,-./0123456789:;<=>?"
  const CAPITALS := "@ABCDEFGHIJKLMNOPQRSTUVWXYZ[é]íó"
  const SMALL_LETTERS := "úabcdefghijklmnopqrstuvwxyzç÷Ññ█"
  /** Those of 0x11 0x30 to 0x11 0x3f. */
  const SPECIAL_CHARS := "®°½¿™¢£♪à èâêîôû"
  /** Those of 0x12 0x20 to 0x12 0x3f and of 0x13 0x20 to 0x13 0x3f. */
  const SPANISH_FRENCH_CHARS := "ÁÉÓÚÜü‘¡*'—©℠•“”ÀÂÇÈÊËëÎÏïÔÙùÛ«»"
  const PORTUGUESE_GERMAN_CHARS := "ÃãÍÌìÒòÕõ{}\\^_|~ÄäÖöß¥¤¦ÅåØø┌┐└┘"

  type BasicNo = n: int | 0 <= n < 96
  type SpecialNo = n: int | 0 <= n < 16
  type ExtendedNo = n: int | 0 <= n < 32

  datatype Glyph = Basic(n: BasicNo) | Special(k: SpecialNo) | SpanishFrench(i: ExtendedNo) | PortugueseGerman(j: ExtendedNo) {
    function Shape(): Rune {
      match this
      case Basic(n) => (if n < 32 then MARKS_AND_DIGITS[n] else if n < 64 then CAPITALS[n - 32] else SMALL_LETTERS[n - 64]) as int
      case Special(k) => SPECIAL_CHARS[k] as int
      case SpanishFrench(i) => SPANISH_FRENCH_CHARS[i] as int
      case PortugueseGerman(j) => PORTUGUESE_GERMAN_CHARS[j] as int
    }

    predicate Extended() { SpanishFrench? || PortugueseGerman? }

    /** An extended character follows a stand-in that other decoders show. */
    function Codes(): seq<Pair> {
      match this
      case Basic(n) => [Pair(0x20 + n, 0)]
      case Special(k) => [Pair(0x11, 0x30 + k)]
      case SpanishFrench(i) => [Pair(0x20, 0), Pair(0x12, 0x20 + i)]
      case PortugueseGerman(j) => [Pair(0x20, 0), Pair(0x13, 0x20 + j)]
    }
  }

  lemma BasicAgrees(n: BasicNo)
    ensures Captions608.Basic(0x20 + n) == Glyph.Basic(n).Shape()
  {
    hide Captions608.Basic, MARKS_AND_DIGITS, CAPITALS, SMALL_LETTERS;
    TableSizes();
    if n < 32 {
      MarksAgree(n);
    } else if n < 64 {
      CapitalsAgree(n - 32);
    } else {
      SmallLettersAgree(n - 64);
    }
  }

  lemma TableSizes()
    ensures |MARKS_AND_DIGITS| == |CAPITALS| == |SMALL_LETTERS| == 32
  {
  }

  lemma MarksAgree(i: ExtendedNo)
    ensures Captions608.Basic(0x20 + i) == MARKS_AND_DIGITS[i] as int
  {
  }

  lemma CapitalsAgree(i: ExtendedNo)
    ensures Captions608.Basic(0x40 + i) == CAPITALS[i] as int
  {
  }

  lemma SmallLettersAgree(i: ExtendedNo)
    ensures Captions608.Basic(0x60 + i) == SMALL_LETTERS[i] as int
  {
  }

  lemma SpecialAgrees(k: SpecialNo)
    ensures SPECIAL[k] == Special(k).Shape()
  {
  }

  lemma SpanishFrenchAgrees(i: ExtendedNo)
    ensures EXTENDED_12[i] == SpanishFrench(i).Shape() != 0x20
  {
  }

  lemma PortugueseGermanAgrees(j: ExtendedNo)
    ensures EXTENDED_13[j] == PortugueseGerman(j).Shape() != 0x20
  {
  }

  // ----- text -----

  function Shapes(text: seq<Glyph>): (r: seq<Rune>)
    ensures |r| == |text|
  {
    seq(|text|, i requires 0 <= i < |text| => text[i].Shape())
  }

  /** Two characters to a pair where two basic ones follow each other. */
  function Codes(text: seq<Glyph>): seq<Pair> {
    if text == [] then []
    else if |text| >= 2 && text[0].Basic? && text[1].Basic? then
      [Pair(0x20 + text[0].n, 0x20 + text[1].n)] + Codes(text[2..])
    else text[0].Codes() + Codes(text[1..])
  }

  /** Writing at the cursor; the text lands as sent. */
  ghost predicate Lands(m: Memory, text: seq<Glyph>)
    requires m.col + |text| <= COLS
  {
    ExecuteAll(m, Codes(text)) == if text == [] then m else AfterTyping(m, Shapes(text))
  }

  /** The decoder's cursor stays on the last column, so an extended character cannot take its stand-in's place there. */
  predicate FitsFrom(col: ColNo, text: seq<Glyph>) {
    col + |text| <= COLS && (col + |text| == COLS && text != [] ==> !text[|text| - 1].Extended())
  }

  lemma OneExecuted(m: Memory, p: Pair)
    ensures ExecuteAll(m, [p]) == m.Execute(p)
  {
    hide Memory.Execute;
    assert ExecuteAll(m, [p]) == ExecuteAll(m.Execute(p), []);
  }

  lemma BasicLands(m: Memory, n: BasicNo)
    requires m.channel == 1 && !m.text
    ensures m.Execute(Pair(0x20 + n, 0)) == AfterTyping(m, [Glyph.Basic(n).Shape()])
  {
    hide Memory.Put, AfterTyping, Captions608.Basic, Glyph.Shape;
    assert m.Execute(Pair(0x20 + n, 0)) == m.Put(Captions608.Basic(0x20 + n));
    BasicAgrees(n);
    PutTypes(m, Glyph.Basic(n).Shape());
  }

  lemma SpecialLands(m: Memory, k: SpecialNo)
    requires m.channel == 1 && !m.text
    ensures m.Execute(Pair(0x11, 0x30 + k)) == AfterTyping(m, [Special(k).Shape()])
  {
    SpecialAgrees(k);
    assert |SPECIAL| == 16;
    hide Memory.Put, AfterTyping, SPECIAL, Glyph.Shape;
    assert m == m.(channel := 1);
    assert m.Execute(Pair(0x11, 0x30 + k)) == m.Put(SPECIAL[k]);
    PutTypes(m, Special(k).Shape());
  }

  lemma ExtendedLands(m: Memory, g: Glyph)
    requires m.channel == 1 && !m.text && g.Extended() && m.col < COLS - 1
    ensures ExecuteAll(m, g.Codes()) == AfterTyping(m, [g.Shape()])
  {
    ExtendedRuns(m, g);
    hide Memory.Execute, Glyph.Shape, Glyph.Codes, ExecuteAll;
    StandInReplaced(m, g.Shape());
  }

  lemma StandInReplaced(m: Memory, u: Rune)
    requires m.col < COLS - 1
    ensures AfterTyping(m, [0x20]).Extended(u) == AfterTyping(m, [u])
  {
    var cells := m.Target()[m.row];
    OneCell(cells, m.col, 0x20);
    OneCell(cells, m.col, u);
    assert cells[m.col := 0x20][m.col := u] == cells[m.col := u];
    Overwritten(m.Target(), m.row, cells[m.col := 0x20], cells[m.col := u]);
  }

  lemma OneCell(cells: Row, col: ColNo, u: Rune)
    ensures cells[..col] + [u] + cells[col + 1..] == cells[col := u]
  {
  }

  lemma ExtendedRuns(m: Memory, g: Glyph)
    requires m.channel == 1 && !m.text && g.Extended()
    ensures ExecuteAll(m, g.Codes()) == AfterTyping(m, [0x20]).Extended(g.Shape())
  {
    var space, p := AfterTyping(m, [0x20]), g.Codes()[1];
    assert g.Codes() == [Pair(0x20, 0)] + [p];
    SpaceLands(m);
    TypedKeeps(m, [0x20]);
    ExtendedControl(space, g);
    hide AfterTyping, Memory.Extended, Glyph.Shape, Memory.Execute, ExecuteAll, Glyph.Codes;
    ExecuteConcat(m, [Pair(0x20, 0)], [p]);
    OneExecuted(m, Pair(0x20, 0));
    OneExecuted(space, p);
  }

  lemma ExtendedControl(m: Memory, g: Glyph)
    requires m.channel == 1 && !m.text && g.Extended()
    ensures m.Execute(g.Codes()[1]) == m.Extended(g.Shape())
  {
    if g.SpanishFrench? {
      SpanishFrenchAgrees(g.i);
      Table12(m, 0x20 + g.i);
    } else {
      PortugueseGermanAgrees(g.j);
      Table13(m, 0x20 + g.j);
    }
    hide Memory.Execute, Memory.Extended, EXTENDED_12, EXTENDED_13, Glyph.Shape;
  }

  lemma Table12(m: Memory, b2: Byte)
    requires m.channel == 1 && !m.text && 0x20 <= b2 < 0x40
    ensures |EXTENDED_12| == 32 && m.Execute(Pair(0x12, b2)) == m.Extended(EXTENDED_12[b2 - 0x20])
  {
    assert |EXTENDED_12| == 32;
    hide Memory.Extended, EXTENDED_12, EXTENDED_13, SPECIAL;
    assert m == m.(channel := 1);
  }

  lemma Table13(m: Memory, b2: Byte)
    requires m.channel == 1 && !m.text && 0x20 <= b2 < 0x40
    ensures |EXTENDED_13| == 32 && m.Execute(Pair(0x13, b2)) == m.Extended(EXTENDED_13[b2 - 0x20])
  {
    assert |EXTENDED_13| == 32;
    hide Memory.Extended, EXTENDED_12, EXTENDED_13, SPECIAL;
    assert m == m.(channel := 1);
  }

  lemma SpaceLands(m: Memory)
    requires m.channel == 1 && !m.text
    ensures m.Execute(Pair(0x20, 0)) == AfterTyping(m, [0x20])
  {
    assert Captions608.Basic(0x20) == 0x20;
    PutTypes(m, 0x20);
  }

  lemma GlyphLands(m: Memory, g: Glyph)
    requires m.channel == 1 && !m.text && (g.Extended() ==> m.col < COLS - 1)
    ensures ExecuteAll(m, g.Codes()) == AfterTyping(m, [g.Shape()])
  {
    hide Memory.Execute, AfterTyping, Glyph.Shape;
    match g
    case Basic(n) =>
      BasicLands(m, n);
      OneExecuted(m, Pair(0x20 + n, 0));
    case Special(k) =>
      SpecialLands(m, k);
      OneExecuted(m, Pair(0x11, 0x30 + k));
    case _ =>
      ExtendedLands(m, g);
  }

  lemma ShapesOf(text: seq<Glyph>, k: nat)
    requires k <= |text|
    ensures Shapes(text) == Shapes(text[..k]) + Shapes(text[k..])
  {
    hide Glyph.Shape;
  }

  /** Text that fits its row lands in it character by character, whatever tables it needs. */
  lemma {:induction false} TextLands(m: Memory, text: seq<Glyph>)
    requires m.channel == 1 && !m.text && FitsFrom(m.col, text)
    ensures Lands(m, text)
    decreases text
  {
    hide AfterTyping, Glyph.Shape, Memory.Execute, Glyph.Codes, ExecuteAll;
    if text == [] {
      NothingExecuted(m);
    } else {
      var k := if |text| >= 2 && text[0].Basic? && text[1].Basic? then 2 else 1;
      var first, rest := text[..k], text[k..];
      var n := AfterTyping(m, Shapes(first));
      FirstLands(m, text, k);
      TypedKeeps(m, Shapes(first));
      ShapesOf(text, k);
      if rest == [] {
        assert Shapes(first) + Shapes(rest) == Shapes(first);
        NothingExecuted(n);
      } else {
        TextLands(n, rest);
        TypedTwice(m, Shapes(first), Shapes(rest));
      }
    }
  }

  lemma NothingExecuted(m: Memory)
    ensures ExecuteAll(m, []) == m
  {
  }

  lemma FirstLands(m: Memory, text: seq<Glyph>, k: nat)
    requires m.channel == 1 && !m.text && FitsFrom(m.col, text) && text != []
    requires k == if |text| >= 2 && text[0].Basic? && text[1].Basic? then 2 else 1
    ensures ExecuteAll(m, Codes(text)) == ExecuteAll(AfterTyping(m, Shapes(text[..k])), Codes(text[k..]))
  {
    hide AfterTyping, Glyph.Shape, Memory.Execute, Captions608.Basic;
    if k == 2 {
      var p := Pair(0x20 + text[0].n, 0x20 + text[1].n);
      BasicAgrees(text[0].n);
      BasicAgrees(text[1].n);
      TwoTyped(m, p.b1, p.b2);
      assert Shapes(text[..2]) == [text[0].Shape(), text[1].Shape()];
      ExecuteConcat(m, [p], Codes(text[2..]));
      OneExecuted(m, p);
    } else {
      GlyphLands(m, text[0]);
      assert Shapes(text[..1]) == [text[0].Shape()];
      ExecuteConcat(m, text[0].Codes(), Codes(text[1..]));
    }
  }

  function FirstOf(text: seq<Glyph>): (k: nat)
    requires text != []
    ensures 1 <= k <= |text|
  {
    if |text| >= 2 && text[0].Basic? && text[1].Basic? then 2 else 1
  }

  function FirstCodes(text: seq<Glyph>): seq<Pair>
    requires text != []
  {
    if FirstOf(text) == 2 then [Pair(0x20 + text[0].n, 0x20 + text[1].n)] else text[0].Codes()
  }

  lemma CodesSplit(text: seq<Glyph>)
    requires text != []
    ensures Codes(text) == FirstCodes(text) + Codes(text[FirstOf(text)..])
  {
    hide Glyph.Codes;
  }

  lemma OnlyCodes(text: seq<Glyph>)
    requires |text| == 1
    ensures Codes(text) == text[0].Codes() && Codes([]) == []
  {
    CodesSplit(text);
    hide Glyph.Codes;
    assert text[1..] == [];
  }

  lemma {:induction false} LastAlone(text: seq<Glyph>)
    requires text != [] && text[|text| - 1].Extended()
    ensures Codes(text) == Codes(text[..|text| - 1]) + text[|text| - 1].Codes()
  {
    hide Glyph.Codes, Codes;
    var init, last := text[..|text| - 1], text[|text| - 1];
    if |text| == 1 {
      OnlyCodes(text);
      assert init == [] && [] + last.Codes() == last.Codes();
    } else {
      var k := FirstOf(text);
      CodesSplit(text);
      CodesSplit(init);
      assert FirstOf(init) == k && FirstCodes(init) == FirstCodes(text);
      LastAlone(text[k..]);
      assert text[k..][..|text| - k - 1] == init[k..];
      assert FirstCodes(text) + (Codes(init[k..]) + last.Codes()) == FirstCodes(text) + Codes(init[k..]) + last.Codes();
    }
  }

  lemma CodesConcat(m: Memory, text: seq<Glyph>)
    requires text != [] && text[|text| - 1].Extended()
    ensures ExecuteAll(m, Codes(text)) == ExecuteAll(ExecuteAll(m, Codes(text[..|text| - 1])), text[|text| - 1].Codes())
  {
    LastAlone(text);
    ExecuteConcat(m, Codes(text[..|text| - 1]), text[|text| - 1].Codes());
  }

  lemma ShapeNotSpace(g: Glyph)
    requires g.Extended()
    ensures g.Shape() != 0x20
  {
    if g.SpanishFrench? {
      SpanishFrenchAgrees(g.i);
    } else {
      PortugueseGermanAgrees(g.j);
    }
  }

  /** In the last column the stand-in stays and the extended character takes the cell before. */
  lemma LastColumnMisplaces(m: Memory, text: seq<Glyph>)
    requires m.channel == 1 && !m.text && m.col + |text| == COLS && text != [] && text[|text| - 1].Extended()
    ensures !Lands(m, text)
  {
    hide Glyph.Codes, Glyph.Shape, Memory.Execute, ExecuteAll, Codes;
    var k := |text| - 1;
    var init, u := text[..k], text[k].Shape();
    ShapeNotSpace(text[k]);
    TextLands(m, init);
    var n := if init == [] then m else AfterTyping(m, Shapes(init));
    TypedKeeps(m, Shapes(init));
    CodesConcat(m, text);
    ExtendedRuns(n, text[k]);
    StandInStays(n, u);
    LastCell(m, Shapes(text));
    NothingExecuted(m);
  }

  lemma StandInStays(n: Memory, u: Rune)
    requires n.col == COLS - 1
    ensures AfterTyping(n, [0x20]).Extended(u).Target()[n.row][COLS - 1] == 0x20
  {
  }

  lemma LastCell(m: Memory, runes: seq<Rune>)
    requires m.col + |runes| == COLS && runes != []
    ensures AfterTyping(m, runes).Target()[m.row][COLS - 1] == runes[|runes| - 1]
  {
  }

  /** Text that is not too long for its row lands exactly when it does not end with an extended character in the last column. */
  lemma LandsExactlyWhen(m: Memory, text: seq<Glyph>)
    requires m.channel == 1 && !m.text && m.col + |text| <= COLS
    ensures Lands(m, text) <==> FitsFrom(m.col, text)
  {
    if FitsFrom(m.col, text) {
      TextLands(m, text);
    } else {
      LastColumnMisplaces(m, text);
    }
  }

  // ----- captions loaded and shown at once -----

  const RESUME_LOADING := Pair(0x14, 0x20)
  const ERASE_LOADED := Pair(0x14, 0x2e)
  const END_OF_CAPTION := Pair(0x14, 0x2f)

  datatype Line = Line(row: RowNo, indent: Indent, text: seq<Glyph>) {
    predicate Fits() { FitsFrom(4 * indent, text) }

    function Cells(): Row
      requires Fits()
    {
      seq(4 * indent, _ => 0) + Shapes(text) + seq(COLS - 4 * indent - |text|, _ => 0)
    }

    function Commands(): seq<Pair> { [IndentPreamble(row, indent, false)] + Codes(text) }
  }

  /** Lines that each have a row to themselves. */
  ghost predicate Proper(lines: seq<Line>) {
    && (forall i :: 0 <= i < |lines| ==> lines[i].Fits())
    && forall i, j :: 0 <= i < j < |lines| ==> lines[i].row != lines[j].row
  }

  function LineCommands(lines: seq<Line>): seq<Pair> {
    if lines == [] then [] else LineCommands(lines[..|lines| - 1]) + lines[|lines| - 1].Commands()
  }

  function Commands(lines: seq<Line>): seq<Pair> {
    [RESUME_LOADING, ERASE_LOADED] + LineCommands(lines) + [END_OF_CAPTION]
  }

  /** Each line's characters in its row, and nothing else. */
  ghost predicate Pictures(s: Screen, lines: seq<Line>)
    requires Proper(lines)
  {
    forall r :: 0 <= r < ROWS ==>
      && (forall i :: 0 <= i < |lines| && lines[i].row == r ==> s[r] == lines[i].Cells())
      && ((forall i :: 0 <= i < |lines| ==> lines[i].row != r) ==> s[r] == BlankRow())
  }

  ghost predicate Loading(m: Memory, shown: Screen, lines: seq<Line>)
    requires Proper(lines)
  {
    m.mode.PopOn? && m.channel == 1 && !m.text && m.shown == shown && Pictures(m.hidden, lines)
  }

  lemma LineLoads(m: Memory, shown: Screen, lines: seq<Line>)
    requires lines != [] && Proper(lines) && Proper(lines[..|lines| - 1]) && Loading(m, shown, lines[..|lines| - 1])
    ensures Loading(ExecuteAll(m, lines[|lines| - 1].Commands()), shown, lines)
  {
    hide Memory.Execute, ExecuteAll, IndentPreamble, Codes, Glyph.Shape;
    var before, l := lines[..|lines| - 1], lines[|lines| - 1];
    var p, n := IndentPreamble(l.row, l.indent, false), m.(row := l.row, col := 4 * l.indent);
    PreambleGoesThere(m, l.row, l.indent, false);
    assert m.Execute(p) == n;
    ExecuteConcat(m, [p], Codes(l.text));
    OneExecuted(m, p);
    TextLands(n, l.text);
    assert m.hidden[l.row] == BlankRow();
    assert l.text == [] ==> BlankRow() == l.Cells();
    assert BlankRow()[..n.col] + Shapes(l.text) + BlankRow()[n.col + |l.text|..] == l.Cells();
    var after := ExecuteAll(m, l.Commands());
    assert after.hidden == m.hidden[l.row := l.Cells()];
    forall r, i | 0 <= r < ROWS && 0 <= i < |lines| && lines[i].row == r ensures after.hidden[r] == lines[i].Cells() {
      if i < |before| {
        assert before[i] == lines[i];
      }
    }
    forall r | 0 <= r < ROWS && forall i :: 0 <= i < |lines| ==> lines[i].row != r ensures after.hidden[r] == BlankRow() {
      assert lines[|before|].row != r;
      assert forall i :: 0 <= i < |before| ==> before[i] == lines[i];
    }
  }

  lemma {:induction false} LinesLoad(m: Memory, lines: seq<Line>)
    requires Proper(lines) && Loading(m, m.shown, [])
    ensures Loading(ExecuteAll(m, LineCommands(lines)), m.shown, lines)
  {
    hide Memory.Execute, Loading, Line.Commands;
    if lines == [] {
      NothingExecuted(m);
    } else {
      var before := lines[..|lines| - 1];
      LinesLoad(m, before);
      ExecuteConcat(m, LineCommands(before), lines[|lines| - 1].Commands());
      LineLoads(ExecuteAll(m, LineCommands(before)), m.shown, lines);
    }
  }

  /** Whatever was there before, a caption sent shows its lines, every character in its cell, and nothing else. */
  lemma CaptionShows(m: Memory, lines: seq<Line>)
    requires Proper(lines)
    ensures Pictures(ExecuteAll(m, Commands(lines)).shown, lines)
    ensures ExecuteAll(m, Commands(lines)).hidden == m.shown
  {
    hide Memory.Execute, Pictures;
    var start := m.(mode := PopOn, text := false, channel := 1, hidden := Blank());
    Starts(m);
    var body := LineCommands(lines);
    BlankPictures();
    LinesLoad(start, lines);
    var loaded := ExecuteAll(start, body);
    ExecuteConcat(m, [RESUME_LOADING, ERASE_LOADED], body);
    ExecuteConcat(m, [RESUME_LOADING, ERASE_LOADED] + body, [END_OF_CAPTION]);
    OneExecuted(loaded, END_OF_CAPTION);
    Swaps(loaded);
  }

  lemma BlankPictures()
    ensures Pictures(Blank(), [])
  {
  }

  lemma Starts(m: Memory)
    ensures ExecuteAll(m, [RESUME_LOADING, ERASE_LOADED]) == m.(mode := PopOn, text := false, channel := 1, hidden := Blank())
  {
    var n := m.(channel := 1, mode := PopOn, text := false);
    assert m.Execute(RESUME_LOADING) == n && n.Execute(ERASE_LOADED) == n.(hidden := Blank());
    hide Memory.Execute;
    ExecuteConcat(m, [RESUME_LOADING], [ERASE_LOADED]);
    assert [RESUME_LOADING] + [ERASE_LOADED] == [RESUME_LOADING, ERASE_LOADED];
    OneExecuted(m, RESUME_LOADING);
    OneExecuted(n, ERASE_LOADED);
  }

  lemma Swaps(m: Memory)
    ensures m.Execute(END_OF_CAPTION).shown == m.hidden && m.Execute(END_OF_CAPTION).hidden == m.shown
  {
  }

  /** Sent with its commands doubled, and at most one copy lost of each, a caption shows its lines and nothing else. */
  lemma SentCaptionShows(s: State, items: seq<Item>, lines: seq<Line>)
    requires Proper(lines) && Stream(items) && Apart(items) && Meant(items) == Commands(lines)
    requires forall i :: 0 <= i < |items| ==>
      items[i].pair != NULL_PAIR && (items[i].Command? ==> items[i].lost <= 1)
    requires items != [] && items[0].Command? ==> s.last != items[0].pair
    ensures Pictures(Run(s, Arriving(items)).mem.shown, lines)
  {
    hide Pictures, Commands;
    RedundancyWorks(s, items);
    CaptionShows(s.mem, lines);
  }

  // ----- lines rolled up -----

  const CARRIAGE_RETURN := Pair(0x14, 0x2d)

  function RollUpCommand(depth: Depth): Pair { Pair(0x14, 0x23 + depth) }

  function FullRow(text: seq<Glyph>): Row
    requires FitsFrom(0, text)
  {
    Shapes(text) + seq(COLS - |text|, _ => 0)
  }

  ghost predicate AllFit(texts: seq<seq<Glyph>>) {
    forall i :: 0 <= i < |texts| ==> FitsFrom(0, texts[i])
  }

  function RolledCommands(texts: seq<seq<Glyph>>): seq<Pair> {
    if texts == [] then [] else RolledCommands(texts[..|texts| - 1]) + ([CARRIAGE_RETURN] + Codes(texts[|texts| - 1]))
  }

  function RollUpCommands(depth: Depth, base: RowNo, texts: seq<seq<Glyph>>): seq<Pair> {
    [RollUpCommand(depth), IndentPreamble(base, 0, false)] + RolledCommands(texts)
  }

  /** The last lines, as many as the depth and the screen have rows for, the newest on the base row. */
  ghost predicate LastLines(s: Screen, depth: Depth, base: RowNo, texts: seq<seq<Glyph>>)
    requires AllFit(texts)
  {
    forall r :: 0 <= r < ROWS ==>
      var back := base - r;
      s[r] == if 0 <= back < depth && back < |texts| then FullRow(texts[|texts| - 1 - back]) else BlankRow()
  }

  ghost predicate Rolling(m: Memory, depth: Depth, base: RowNo, texts: seq<seq<Glyph>>)
    requires AllFit(texts)
  {
    m.mode == RollUp && m.depth == depth && m.row == base && m.channel == 1 && !m.text && LastLines(m.shown, depth, base, texts)
  }

  lemma LineRolls(m: Memory, depth: Depth, base: RowNo, texts: seq<seq<Glyph>>)
    requires texts != [] && AllFit(texts) && AllFit(texts[..|texts| - 1]) && Rolling(m, depth, base, texts[..|texts| - 1])
    ensures Rolling(ExecuteAll(m, [CARRIAGE_RETURN] + Codes(texts[|texts| - 1])), depth, base, texts)
  {
    hide Memory.Execute, ExecuteAll, Codes, Glyph.Shape;
    var before, text := texts[..|texts| - 1], texts[|texts| - 1];
    var n := m.Execute(CARRIAGE_RETURN);
    Returned(m);
    ExecuteConcat(m, [CARRIAGE_RETURN], Codes(text));
    OneExecuted(m, CARRIAGE_RETURN);
    TextLands(n, text);
    var after := ExecuteAll(n, Codes(text));
    ScreenRolls(m.shown, depth, base, texts);
    assert n.shown[base] == BlankRow();
    assert text == [] ==> BlankRow() == FullRow(text);
    assert BlankRow()[..0] + Shapes(text) + BlankRow()[0 + |text|..] == FullRow(text);
    hide LastLines, Scrolled;
    assert after.shown == n.shown[base := FullRow(text)];
  }

  lemma ScreenRolls(s: Screen, depth: Depth, base: RowNo, texts: seq<seq<Glyph>>)
    requires texts != [] && AllFit(texts) && AllFit(texts[..|texts| - 1])
    requires LastLines(s, depth, base, texts[..|texts| - 1])
    ensures LastLines(Scrolled(s, base, depth)[base := FullRow(texts[|texts| - 1])], depth, base, texts)
  {
    hide FullRow;
  }

  lemma Returned(m: Memory)
    requires m.mode.RollUp? && m.channel == 1
    ensures m.Execute(CARRIAGE_RETURN) == m.(shown := Scrolled(m.shown, m.row, m.depth), col := 0)
  {
    hide Scrolled;
    assert m == m.(channel := 1);
  }

  lemma {:induction false} LinesRoll(m: Memory, depth: Depth, base: RowNo, texts: seq<seq<Glyph>>)
    requires AllFit(texts) && Rolling(m, depth, base, [])
    ensures Rolling(ExecuteAll(m, RolledCommands(texts)), depth, base, texts)
  {
    hide Memory.Execute, Rolling, Codes;
    if texts == [] {
      NothingExecuted(m);
    } else {
      var before := texts[..|texts| - 1];
      LinesRoll(m, depth, base, before);
      ExecuteConcat(m, RolledCommands(before), [CARRIAGE_RETURN] + Codes(texts[|texts| - 1]));
      LineRolls(ExecuteAll(m, RolledCommands(before)), depth, base, texts);
    }
  }

  /** From any other mode, text rolled up shows its last lines, and nothing else. */
  lemma RollUpShowsLastLines(m: Memory, depth: Depth, base: RowNo, texts: seq<seq<Glyph>>)
    requires !m.mode.RollUp? && AllFit(texts)
    ensures LastLines(ExecuteAll(m, RollUpCommands(depth, base, texts)).shown, depth, base, texts)
  {
    hide Memory.Execute, LastLines, IndentPreamble;
    var start, p := m.Execute(RollUpCommand(depth)), IndentPreamble(base, 0, false);
    Started(m, depth);
    PreambleGoesThere(start, base, 0, false);
    BlankMoves(start, base);
    var placed := start.Execute(p);
    LinesRoll(placed, depth, base, texts);
    ExecuteConcat(m, [RollUpCommand(depth), p], RolledCommands(texts));
    ExecuteConcat(m, [RollUpCommand(depth)], [p]);
    assert [RollUpCommand(depth)] + [p] == [RollUpCommand(depth), p];
    OneExecuted(m, RollUpCommand(depth));
    OneExecuted(start, p);
  }

  lemma Started(m: Memory, depth: Depth)
    requires !m.mode.RollUp?
    ensures m.Execute(RollUpCommand(depth)) ==
      m.(mode := RollUp, text := false, channel := 1, depth := depth, row := ROWS - 1, col := 0, shown := Blank(), hidden := Blank())
  {
  }

  lemma BlankMoves(m: Memory, base: RowNo)
    requires m.mode.RollUp? && m.shown == Blank() && m.channel == 1
    ensures var n := m.Execute(IndentPreamble(base, 0, false));
            n.shown == Blank() && n.mode == m.mode && n.depth == m.depth && n.channel == 1 && n.text == m.text
    ensures AllFit([]) && LastLines(Blank(), m.depth, base, [])
  {
    ByteOne(base);
    hide PreambleRow, PreambleCol, ROW_CODES;
  }

  // ----- the other commands -----

  // The two first bytes of these commands mean the same.

  /** Backspace takes the cell before the cursor; delete to end of row takes the cells from it on. */
  lemma EditingCommands(m: Memory, b1: Byte)
    requires m.channel == 1 && (b1 == 0x14 || b1 == 0x15)
    ensures m.col > 0 ==> m.Execute(Pair(b1, 0x21)) == m.WithRow(m.Target()[m.row][m.col - 1 := 0]).(col := m.col - 1)
    ensures m.col == 0 ==> m.Execute(Pair(b1, 0x21)) == m
    ensures m.Execute(Pair(b1, 0x24)) == m.WithRow(m.Target()[m.row][..m.col] + seq(COLS - m.col, _ => 0))
  {
    assert m == m.(channel := 1);
    assert m.Execute(Pair(b1, 0x24)) == m.DeleteToEnd() && m.Execute(Pair(b1, 0x21)) == m.Backspace();
    assert BlankRow()[m.col..] == seq(COLS - m.col, _ => 0);
  }

  /** Painting on, the text services, the two erasures, and the codes that do nothing. */
  lemma ModeCommands(m: Memory, b1: Byte, b2: Byte)
    requires m.channel == 1 && (b1 == 0x14 || b1 == 0x15)
    ensures m.Execute(Pair(b1, 0x29)) == m.(mode := PaintOn, text := false)
    ensures m.Execute(Pair(b1, 0x2a)) == m.Execute(Pair(b1, 0x2b)) == m.(text := true)
    ensures m.Execute(Pair(b1, 0x2c)) == m.(shown := Blank())
    ensures m.Execute(Pair(b1, 0x2e)) == m.(hidden := Blank())
    ensures b2 in {0x22, 0x23, 0x28} ==> m.Execute(Pair(b1, b2)) == m
  {
    assert m == m.(channel := 1);
  }

  /** A tab moves the cursor one to three columns on, to the last at most. */
  lemma TabsMove(m: Memory, n: Byte)
    requires m.channel == 1 && 1 <= n <= 3
    ensures m.Execute(Pair(0x17, 0x20 + n)) == m.(col := if m.col + n <= 31 then m.col + n else 31)
  {
    assert m == m.(channel := 1);
  }
}
