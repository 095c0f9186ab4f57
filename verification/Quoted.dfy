/** What double-quoted YAML scalars look like, in characters: the escapes, which characters are
  * escaped, where lines are folded and how folded lines are read. */
module QuotedText {
  import opened Utf8
  import opened DoubleQuoted

  // ----- Escapes --------------------------------------------------------------------------

  /** The character that an escape of one letter stands for, or -1. */
  function Stands(letter: char): int {
    match letter
    case '0' => 0
    case 'a' => 7
    case 'b' => 8
    case 't' => 9
    case '\t' => 9
    case 'n' => 10
    case 'v' => 11
    case 'f' => 12
    case 'r' => 13
    case 'e' => 27
    case ' ' => 32
    case '"' => 34
    case '\'' => 39
    case '\\' => 92
    case 'N' => 0x85
    case '_' => 0xA0
    case 'L' => 0x2028
    case 'P' => 0x2029
    case _ => -1
  }

  /** How many hexadecimal figures follow the letter, or none. */
  function Width(letter: char): nat {
    match letter
    case 'x' => 2
    case 'u' => 4
    case 'U' => 8
    case _ => 0
  }

  predicate Figure(c: Rune, d: nat) {
    if d < 10 then c == 48 + d else d < 16 && (c == 55 + d || c == 87 + d)
  }

  /** Is `v` the number that the figures spell? */
  ghost predicate Figures(cs: seq<Rune>, v: nat) {
    if cs == [] then v == 0 else Figure(cs[|cs| - 1], v % 16) && Figures(cs[..|cs| - 1], v / 16)
  }

  predicate IsScalar(v: int) {
    0 <= v < 0xD800 || 0xE000 <= v < 0x11_0000
  }

  lemma FigureIs(c: Rune)
    ensures IsHex(c) ==> Figure(c, AsHex(c))
    ensures forall d: nat :: d < 16 && Figure(c, d) ==> IsHex(c) && AsHex(c) == d
  {
  }

  lemma {:induction false} FiguresAre(cs: seq<Rune>)
    requires forall k :: 0 <= k < |cs| ==> IsHex(cs[k])
    ensures Figures(cs, HexValue(cs))
    decreases |cs|
  {
    if cs != [] {
      FiguresAre(cs[..|cs| - 1]);
      FigureIs(cs[|cs| - 1]);
    }
  }

  lemma {:induction false} OneNumber(cs: seq<Rune>, v: nat)
    requires Figures(cs, v)
    ensures (forall k :: 0 <= k < |cs| ==> IsHex(cs[k])) && HexValue(cs) == v
    decreases |cs|
  {
    if cs != [] {
      OneNumber(cs[..|cs| - 1], v / 16);
      FigureIs(cs[|cs| - 1]);
    }
  }

  /** What the figures of an escape stand for. */
  ghost predicate ReadsFigures(digits: seq<Rune>, e: Escape) {
    if exists v: nat :: Figures(digits, v) then
      exists v: nat ::
        && Figures(digits, v)
        && e == if IsScalar(v) then Means(v, 1 + |digits|)
                else BadEscape("found invalid Unicode character escape code")
    else e == BadEscape("did not find expected hexdecimal number")
  }

  /** What follows a backslash: a letter of the table, or figures of a Unicode scalar value. */
  ghost predicate Reads(cs: seq<Rune>, e: Escape) {
    if cs == [] then e == BadEscape("found unknown escape character")
    else
      var letter := cs[0] as char;
      if Stands(letter) >= 0 then e == Means(Stands(letter), 1)
      else if Width(letter) == 0 then e == BadEscape("found unknown escape character")
      else if |cs| <= Width(letter) then e == BadEscape("did not find expected hexdecimal number")
      else ReadsFigures(cs[1..1 + Width(letter)], e)
  }

  lemma EscapesRead(cs: seq<Rune>)
    ensures Reads(cs, ReadEscape(cs))
  {
    hide ReadCode, ReadsFigures;
    if cs != [] {
      var n := Width(cs[0] as char);
      if n > 0 {
        CodesRead(cs[1..], n);
        assert |cs| > n ==> cs[1..1 + n] == cs[1..][..n];
      }
    }
  }

  lemma CodesRead(cs: seq<Rune>, n: nat)
    ensures var e := ReadCode(cs, n);
      if |cs| < n then e == BadEscape("did not find expected hexdecimal number") else ReadsFigures(cs[..n], e)
  {
    hide Figures, HexValue;
    if |cs| >= n {
      if forall k :: 0 <= k < n ==> IsHex(cs[k]) {
        FiguresAre(cs[..n]);
      } else {
        NoNumber(cs, n);
      }
    }
  }

  lemma NoNumber(cs: seq<Rune>, n: nat)
    requires n <= |cs| && exists k :: 0 <= k < n && !IsHex(cs[k])
    ensures forall v: nat :: !Figures(cs[..n], v)
  {
    var k :| 0 <= k < n && !IsHex(cs[k]);
    assert !IsHex(cs[..n][k]);
    forall v: nat ensures !Figures(cs[..n], v) {
      if Figures(cs[..n], v) {
        OneNumber(cs[..n], v);
      }
    }
  }

  /** The code that is written after the backslash for `v`: a letter, or as few figures as do. */
  ghost predicate Writes(code: seq<Rune>, v: Rune) {
    code != [] &&
    if v in {0, 7, 8, 9, 10, 11, 12, 13, 27, 34, 92, 0x85, 0xA0, 0x2028, 0x2029} then
      |code| == 1 && code[0] != 9 && Stands(code[0] as char) == v
    else
      && |code| == 1 + Width(code[0] as char) && Width(code[0] as char) > 0
      && Figures(code[1..], v) && (forall k :: 1 <= k < |code| ==> code[k] < 97)
      && (Width(code[0] as char) == 2 <==> v < 0x100) && (Width(code[0] as char) == 8 <==> v >= 0x1_0000)
  }

  lemma CodeIs(v: Rune)
    ensures Writes(EscapeCode(v), v)
  {
    hide Hex, Figures;
    CodedIs(v, 2);
    CodedIs(v, 4);
    CodedIs(v, 8);
    Powers();
    if |EscapeCode(v)| > 1 {
      assert EscapeCode(v)[1..] == Hex(v, if v <= 0xFF then 2 else if v <= 0xFFFF then 4 else 8);
    }
  }

  lemma {:induction false} CodedIs(v: nat, n: nat)
    ensures v < Pow16(n) ==> Figures(Hex(v, n), v)
    ensures forall k :: 0 <= k < n ==> Hex(v, n)[k] < 97
    decreases n
  {
    if n > 0 {
      CodedIs(v / 16, n - 1);
      assert Hex(v, n)[..n - 1] == Hex(v / 16, n - 1);
    }
  }

  // ----- Which characters are escaped, and where lines are folded --------------------------

  /** Is `c` written behind a backslash: a control character, a break, a quote, a backslash, a byte
    * order mark, what is beyond the basic plane, and what is not ASCII if that is asked for. */
  predicate Hidden(c: Rune, unicode: bool) {
    || c < 10 || 10 < c < 32 || 0x7F <= c < 0xA0 || c in {10, 34, 92, 0x2028, 0x2029, 0xFEFF}
    || c > 0xFFFD || (!unicode && c > 0x7F)
  }

  /** One character as it is written; after a byte order mark at the start all are escaped. */
  function Shown(value: seq<Rune>, i: nat, cfg: Config): (t: seq<Rune>)
    requires i < |value|
    ensures t != []
  {
    if Hidden(value[i], cfg.unicode) || value[0] == 0xFEFF then [92] + EscapeCode(value[i]) else [value[i]]
  }

  /** What is written for the rest of a value from a column on. A line is folded where it has grown
    * beyond the width, at a space that follows no other and is neither the first nor the last
    * character; a space that follows the fold is kept by a backslash. */
  function Laid(value: seq<Rune>, i: nat, spaced: bool, column: nat, cfg: Config): seq<Rune>
    requires i <= |value|
    decreases |value| - i
  {
    if i == |value| then []
    else
      var t := Shown(value, i, cfg);
      if t == [32] && cfg.allowBreaks && !spaced && column > cfg.bestWidth && 0 < i && i + 1 < |value| then
        var guard := if value[i + 1] == 32 then [92] else [];
        BreakText(cfg.lineBreak) + Spaces(cfg.indent) + guard + Laid(value, i + 1, true, cfg.indent + |guard|, cfg)
      else t + Laid(value, i + 1, t == [32], column + |t|, cfg)
  }

  lemma HiddenIs(value: seq<Rune>, i: nat, unicode: bool)
    requires i < |value|
    ensures NeedsEscape(value, i, unicode) <==> Hidden(value[i], unicode) || value[0] == 0xFEFF
  {
  }

  /** The printer lays the value out so. */
  lemma {:induction false} PrintsLaid(value: seq<Rune>, i: nat, spaced: bool, pen: Pen, cfg: Config)
    requires i <= |value| && PenAhead(pen, spaced, cfg)
    ensures Print(value, i, spaced, pen, cfg).0 == Laid(value, i, spaced, pen.column, cfg)
    decreases |value| - i
  {
    hide *;
    if i == |value| {
      NothingPrinted(value, spaced, pen, cfg);
    } else if value[i] == SPACE && !NeedsEscape(value, i, cfg.unicode) && Folds(value, i, spaced, pen, cfg) {
      FoldsLaid(value, i, spaced, pen, cfg);
      var pen' := Pen(cfg.indent + if value[i + 1] == SPACE then 1 else 0, true, true);
      AheadOfFold(pen', cfg);
      PrintsLaid(value, i + 1, true, pen', cfg);
      FoldPrinted(value, i, spaced, pen, cfg);
    } else {
      var t := Shown(value, i, cfg);
      var pen' := pen.(column := pen.column + |t|);
      Ahead(pen, spaced, pen', t == [32], cfg);
      PrintsLaid(value, i + 1, t == [32], pen', cfg);
      CharPrinted(value, i, spaced, pen, cfg);
    }
  }

  lemma FoldPrinted(value: seq<Rune>, i: nat, spaced: bool, pen: Pen, cfg: Config)
    requires i < |value| && value[i] == SPACE && !NeedsEscape(value, i, cfg.unicode)
    requires Folds(value, i, spaced, pen, cfg) && PenAhead(pen, spaced, cfg) && i + 1 < |value|
    requires var column := cfg.indent + if value[i + 1] == SPACE then 1 else 0;
      Print(value, i + 1, true, Pen(column, true, true), cfg).0 == Laid(value, i + 1, true, column, cfg)
    ensures Print(value, i, spaced, pen, cfg).0 == Laid(value, i, spaced, pen.column, cfg)
  {
    hide Print, NeedsEscape, Hidden, EscapeCode, BreakText, Spaces, PenAhead, IndentText, NeedsBreak;
    PrintIs(value, i, spaced, pen, cfg);
    HiddenIs(value, i, cfg.unicode);
    FoldsLaid(value, i, spaced, pen, cfg);
    assert Shown(value, i, cfg) == [32];
  }

  lemma CharPrinted(value: seq<Rune>, i: nat, spaced: bool, pen: Pen, cfg: Config)
    requires i < |value|
    requires !(value[i] == SPACE && !NeedsEscape(value, i, cfg.unicode) && Folds(value, i, spaced, pen, cfg))
    requires var t := Shown(value, i, cfg);
      var pen' := pen.(column := pen.column + |t|);
      Print(value, i + 1, t == [32], pen', cfg).0 == Laid(value, i + 1, t == [32], pen'.column, cfg)
    ensures Print(value, i, spaced, pen, cfg).0 == Laid(value, i, spaced, pen.column, cfg)
  {
    hide Print, NeedsEscape, Hidden, EscapeCode, BreakText, Spaces, IndentText, NeedsBreak;
    PrintIs(value, i, spaced, pen, cfg);
    HiddenIs(value, i, cfg.unicode);
  }

  lemma NothingPrinted(value: seq<Rune>, spaced: bool, pen: Pen, cfg: Config)
    ensures Print(value, |value|, spaced, pen, cfg).0 == [] == Laid(value, |value|, spaced, pen.column, cfg)
  {
  }

  lemma Ahead(pen: Pen, spaced: bool, pen': Pen, spaced': bool, cfg: Config)
    requires PenAhead(pen, spaced, cfg) && pen'.column > pen.column && pen'.indention == pen.indention
    ensures PenAhead(pen', spaced', cfg)
  {
  }

  lemma AheadOfFold(pen: Pen, cfg: Config)
    requires pen.column >= cfg.indent
    ensures PenAhead(pen, true, cfg)
  {
  }

  lemma FoldsLaid(value: seq<Rune>, i: nat, spaced: bool, pen: Pen, cfg: Config)
    requires i < |value| && PenAhead(pen, spaced, cfg) && Folds(value, i, spaced, pen, cfg)
    ensures NeedsBreak(pen, cfg.indent) && IndentText(pen, cfg) == BreakText(cfg.lineBreak) + Spaces(cfg.indent)
    ensures i + 1 < |value|
  {
  }

  // ----- How folded lines are read --------------------------------------------------------

  /** A line break, and the blanks behind it. */
  datatype Line = Line(brk: seq<Rune>, blanks: seq<Rune>)

  predicate Blanks(cs: seq<Rune>) {
    forall k :: 0 <= k < |cs| ==> cs[k] == 32 || cs[k] == 9
  }

  predicate IsLine(l: Line) {
    && Blanks(l.blanks)
    && (l.brk == [13, 10] || (|l.brk| == 1 && l.brk[0] in {10, 13, 0x85, 0x2028, 0x2029}))
  }

  /** Lines that are told apart: a CR before a LF is one break with it. */
  predicate AreLines(lines: seq<Line>) {
    && (forall k :: 0 <= k < |lines| ==> IsLine(lines[k]))
    && forall k :: 0 <= k < |lines| - 1 ==> !(lines[k] == Line([13], []) && lines[k + 1].brk[0] == 10)
  }

  function Text(lines: seq<Line>): seq<Rune> {
    if lines == [] then [] else lines[0].brk + lines[0].blanks + Text(lines[1..])
  }

  /** A line separator and a paragraph separator stay, every other break is a line feed. */
  function Break(l: Line): Rune {
    if l.brk == [0x2028] || l.brk == [0x2029] then l.brk[0] else 10
  }

  function Breaks(lines: seq<Line>): seq<Rune> {
    seq(|lines|, k requires 0 <= k < |lines| => Break(lines[k]))
  }

  /** One line feed is a space, and of several the first is dropped. */
  function Folded(lines: seq<Line>): seq<Rune>
    requires lines != []
  {
    if Break(lines[0]) != 10 then Breaks(lines)
    else if |lines| == 1 then [32]
    else Breaks(lines[1..])
  }

  /** Neither a blank nor a break follows. */
  predicate Dark(cs: seq<Rune>) {
    cs == [] || (!IsBlank(cs[0]) && !IsBreak(cs[0]))
  }

  lemma {:induction false} BlanksSkipped(blanks: seq<Rune>, cs: seq<Rune>, column: nat, w: White)
    requires Blanks(blanks)
    ensures ScanWhite(blanks + cs, column, w) ==
      ScanWhite(cs, column + |blanks|, if w.leading then w else w.(blanks := w.blanks + blanks))
    decreases |blanks|
  {
    hide ScanWhite;
    if blanks == [] {
      assert [] + cs == cs && w.blanks + [] == w.blanks;
    } else {
      var rest := blanks[1..];
      OneBlank(blanks + cs, column, w);
      assert (blanks + cs)[1..] == rest + cs;
      BlanksSkipped(rest, cs, column + 1, AddBlank(w, blanks[0]));
      assert w.blanks + [blanks[0]] + rest == w.blanks + blanks;
    }
  }

  lemma OneBlank(cs: seq<Rune>, column: nat, w: White)
    requires cs != [] && IsBlank(cs[0])
    ensures ScanWhite(cs, column, w) == ScanWhite(cs[1..], column + 1, AddBlank(w, cs[0]))
  {
  }

  lemma OneLine(l: Line, cs: seq<Rune>, column: nat, w: White)
    requires IsLine(l) && (l == Line([13], []) && cs != [] ==> cs[0] != 10)
    ensures ScanWhite(l.brk + l.blanks + cs, column, w) == ScanWhite(cs, |l.blanks|, AddBreak(w, Break(l)))
    ensures ScanWhite(l.brk[|l.brk|..] + l.blanks + cs, 0, w.(leading := true)) ==
      ScanWhite(cs, |l.blanks|, w.(leading := true))
  {
    hide ScanWhite;
    var all := l.brk + l.blanks + cs;
    var rest := l.blanks + cs;
    assert all == l.brk + rest;
    LineLength(l, cs);
    assert all[|l.brk|..] == rest && l.brk[|l.brk|..] + l.blanks == l.blanks;
    OneBreak(all, column, w);
    BlanksSkipped(l.blanks, cs, 0, AddBreak(w, Break(l)));
    BlanksSkipped(l.blanks, cs, 0, w.(leading := true));
  }

  lemma LineLength(l: Line, cs: seq<Rune>)
    requires IsLine(l) && (l == Line([13], []) && cs != [] ==> cs[0] != 10)
    ensures var all := l.brk + l.blanks + cs;
      IsBreak(all[0]) && BreakLength(all) == |l.brk| && BreakValue(all[0]) == Break(l)
  {
    var all := l.brk + l.blanks + cs;
    assert all[0] == l.brk[0];
    if |l.brk| == 1 && |all| > 1 {
      assert all[1] == if l.blanks != [] then l.blanks[0] else cs[0];
    }
  }

  lemma OneBreak(cs: seq<Rune>, column: nat, w: White)
    requires cs != [] && IsBreak(cs[0])
    ensures ScanWhite(cs, column, w) == ScanWhite(cs[BreakLength(cs)..], 0, AddBreak(w, BreakValue(cs[0])))
  {
  }

  /** Where the last line leaves off. */
  function LastColumn(lines: seq<Line>, column: nat): nat {
    if lines == [] then column else |lines[|lines| - 1].blanks|
  }

  lemma FirstOf(lines: seq<Line>, cs: seq<Rune>)
    requires AreLines(lines) && lines != [] && Dark(cs)
    ensures AreLines(lines[1..]) && IsLine(lines[0])
    ensures Text(lines) + cs == lines[0].brk + lines[0].blanks + (Text(lines[1..]) + cs)
    ensures var rest := Text(lines[1..]) + cs;
      lines[0] == Line([13], []) && rest != [] ==> rest[0] != 10
  {
    if |lines| > 1 {
      assert lines[1..][0] == lines[1];
      assert Text(lines[1..])[0] == lines[1].brk[0];
    }
  }

  lemma {:induction false} LinesRead(lines: seq<Line>, cs: seq<Rune>, column: nat, w: White)
    requires AreLines(lines) && Dark(cs) && w.leading
    ensures ScanWhite(Text(lines) + cs, column, w) ==
      ScanWhite(cs, LastColumn(lines, column), w.(others := w.others + Breaks(lines)))
    decreases |lines|
  {
    hide ScanWhite, Text, AreLines, IsLine, Break;
    if lines == [] {
      NoText(cs);
      assert w.others + Breaks([]) == w.others;
    } else {
      FirstOf(lines, cs);
      var l, rest := lines[0], lines[1..];
      OneLine(l, Text(rest) + cs, column, w);
      LinesRead(rest, cs, |l.blanks|, AddBreak(w, Break(l)));
      assert w.others + [Break(l)] + Breaks(rest) == w.others + Breaks(lines);
    }
  }

  lemma NoText(cs: seq<Rune>)
    ensures Text([]) + cs == cs
  {
  }

  /** The white space of the lines, without that before them. */
  function WhiteOf(lines: seq<Line>): White
    requires lines != []
  {
    White(true, [], [Break(lines[0])], Breaks(lines[1..]))
  }

  lemma JoinsFolded(lines: seq<Line>)
    requires lines != []
    ensures Join(WhiteOf(lines)) == Folded(lines)
  {
    hide Break;
    assert Breaks(lines) == [Break(lines[0])] + Breaks(lines[1..]);
  }

  lemma LinesFound(blanks: seq<Rune>, lines: seq<Line>, cs: seq<Rune>, column: nat)
    requires AreLines(lines) && Dark(cs) && lines != []
    ensures ScanWhite(Text(lines) + cs, column, White(false, blanks, [], [])) ==
      ScanWhite(cs, LastColumn(lines, 0), WhiteOf(lines))
  {
    hide *;
    FirstOf(lines, cs);
    var l, rest := lines[0], lines[1..];
    var w, w1 := White(false, blanks, [], []), White(true, [], [Break(l)], []);
    OneLine(l, Text(rest) + cs, column, w);
    LinesRead(rest, cs, |l.blanks|, w1);
    FirstAdded(w, lines);
  }

  lemma FirstAdded(w: White, lines: seq<Line>)
    requires lines != [] && !w.leading
    ensures AddBreak(w, Break(lines[0])) == White(true, [], [Break(lines[0])], [])
    ensures AddBreak(w, Break(lines[0])).(others := [] + Breaks(lines[1..])) == WhiteOf(lines)
    ensures LastColumn(lines, 0) == LastColumn(lines[1..], |lines[0].blanks|)
  {
    hide Break;
    assert [] + Breaks(lines[1..]) == Breaks(lines[1..]);
  }

  /** Blanks before a break are dropped, and the breaks are folded. */
  lemma WhiteIsFolded(blanks: seq<Rune>, lines: seq<Line>, cs: seq<Rune>, column: nat)
    requires Blanks(blanks) && AreLines(lines) && Dark(cs)
    ensures ScanWhite(blanks + (Text(lines) + cs), column, NO_WHITE) ==
      ScanTop(cs, LastColumn(lines, column + |blanks|)).After(if lines == [] then blanks else Folded(lines))
  {
    hide ScanWhite, ScanTop, Text, AreLines, Breaks, Dark, Folded, Blanks, WhiteOf;
    BlanksSkipped(blanks, Text(lines) + cs, column, NO_WHITE);
    assert [] + blanks == blanks;
    if lines == [] {
      NoText(cs);
      DarkEnds(cs, column + |blanks|, White(false, blanks, [], []));
    } else {
      LinesFound(blanks, lines, cs, column + |blanks|);
      JoinsFolded(lines);
      DarkEnds(cs, LastColumn(lines, 0), WhiteOf(lines));
    }
  }

  lemma DarkEnds(cs: seq<Rune>, column: nat, w: White)
    requires Dark(cs)
    ensures ScanWhite(cs, column, w) == ScanTop(cs, column).After(Join(w))
  {
    hide ScanText;
    WhiteToTop(cs, column, w);
  }

  /** White space inside a scalar, from its first character on. */
  lemma FoldsRead(blanks: seq<Rune>, lines: seq<Line>, cs: seq<Rune>, column: nat)
    requires Blanks(blanks) && AreLines(lines) && Dark(cs) && (blanks != [] || lines != [])
    ensures ScanText(blanks + (Text(lines) + cs), column) ==
      ScanTop(cs, LastColumn(lines, column + |blanks|)).After(if lines == [] then blanks else Folded(lines))
  {
    hide ScanWhite, ScanTop;
    WhiteIsFolded(blanks, lines, cs, column);
    var all := blanks + (Text(lines) + cs);
    if blanks == [] {
      FirstOf(lines, cs);
    }
    assert IsBlank(all[0]) || IsBreak(all[0]);
    TextToWhite(all, column);
  }

  /** An escaped break is dropped with the blanks behind it; the breaks after it stay. */
  lemma EscapedBreakReads(lines: seq<Line>, cs: seq<Rune>, column: nat)
    requires AreLines(lines) && Dark(cs) && lines != []
    ensures ScanText([92] + (Text(lines) + cs), column) ==
      ScanTop(cs, LastColumn(lines, 0)).After(Breaks(lines[1..]))
  {
    hide *;
    FirstOf(lines, cs);
    var l, rest := lines[0], lines[1..];
    var all := Text(lines) + cs;
    LineLength(l, Text(rest) + cs);
    EscapedBreak(all, column);
    assert all[|l.brk|..] == l.blanks + (Text(rest) + cs);
    BlanksOf(l);
    var w := White(true, [], [], []);
    BlanksSkipped(l.blanks, Text(rest) + cs, 0, w);
    LinesRead(rest, cs, |l.blanks|, w);
    LastOf(lines);
    assert [] + Breaks(rest) == Breaks(rest);
    DarkEnds(cs, LastColumn(lines, 0), w.(others := Breaks(rest)));
    Unfolded(Breaks(rest));
  }

  lemma BlanksOf(l: Line)
    requires IsLine(l)
    ensures Blanks(l.blanks)
  {
  }

  lemma LastOf(lines: seq<Line>)
    requires lines != []
    ensures LastColumn(lines, 0) == LastColumn(lines[1..], |lines[0].blanks|)
  {
  }

  lemma Unfolded(breaks: seq<Rune>)
    ensures Join(White(true, [], [], breaks)) == breaks
  {
  }

  lemma EscapedBreak(cs: seq<Rune>, column: nat)
    requires cs != [] && IsBreak(cs[0])
    ensures ScanText([92] + cs, column) == ScanWhite(cs[BreakLength(cs)..], 0, White(true, [], [], []))
  {
    assert ([92] + cs)[1..] == cs;
    assert ([92] + cs)[1 + BreakLength(cs)..] == cs[BreakLength(cs)..];
  }

  /** At the start of a line, three dashes or dots before a space, a break or the end end the
    * document, and so fail. */
  lemma IndicatorFails(c: Rune, cs: seq<Rune>, column: nat)
    requires c == 0x2D || c == 0x2E
    ensures column == 0 && (cs == [] || cs[0] in {0, 9, 10, 13, 32, 0x85, 0x2028, 0x2029}) ==>
      ScanTop([c, c, c] + cs, column) == Failed("found unexpected document indicator")
    ensures !(column == 0 && (cs == [] || cs[0] in {0, 9, 10, 13, 32, 0x85, 0x2028, 0x2029})) ==>
      ScanTop([c, c, c] + cs, column) == ScanText(cs, column + 3).After([c, c, c])
  {
    hide ScanWhite;
    var all := [c, c, c] + cs;
    assert all == [c] + ([c] + ([c] + cs));
    ScansPlain(c, [c] + ([c] + cs), column);
    ScansPlain(c, [c] + cs, column + 1);
    ScansPlain(c, cs, column + 2);
    AfterAfter(ScanText(cs, column + 3), [c], [c]);
    AfterAfter(ScanText(cs, column + 3), [c, c], [c]);
    assert [c] + [c] == [c, c] && [c] + [c, c] == [c, c, c];
    assert cs != [] ==> all[3] == cs[0];
  }
}
