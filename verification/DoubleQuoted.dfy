/** Double-quoted YAML scalars: the emitter's printer (`yaml_emitter_write_double_quoted_scalar`
  * in emitterc.go) and the scanner's reader (`yaml_parser_scan_flow_scalar` in scannerc.go).
  *
  * Text is modelled as Unicode scalar values; Utf8.dfy relates them to bytes. */
module DoubleQuoted {
  import opened Utf8

  const QUOTE: Rune := 0x22
  const BACKSLASH: Rune := 0x5C
  const SPACE: Rune := 0x20
  const BOM: Rune := 0xFEFF

  // ----- Character classes (yamlprivateh.go) -------------------------------------------

  predicate IsPrintable(c: Rune) {
    c == 0x0A || 0x20 <= c <= 0x7E || 0xA0 <= c <= 0xD7FF || (0xE000 <= c <= 0xFFFD && c != BOM)
  }

  predicate IsBreak(c: Rune) {
    c == 0x0D || c == 0x0A || c == 0x85 || c == 0x2028 || c == 0x2029
  }

  predicate IsBlank(c: Rune) {
    c == SPACE || c == 0x09
  }

  predicate IsBlankZ(c: Rune) {
    IsBlank(c) || IsBreak(c) || c == 0
  }

  /** `is_printable` and `is_break` on the bytes of a character. */
  predicate PrintableAt(b: seq<Byte>)
    requires b != [] && |b| >= Width(b[0]) > 0
  {
    || b[0] == 0x0A
    || 0x20 <= b[0] <= 0x7E
    || (b[0] == 0xC2 && b[1] >= 0xA0)
    || 0xC2 < b[0] < 0xED
    || (b[0] == 0xED && b[1] < 0xA0)
    || b[0] == 0xEE
    || (b[0] == 0xEF && !(b[1] == 0xBB && b[2] == 0xBF) && !(b[1] == 0xBF && (b[2] == 0xBE || b[2] == 0xBF)))
  }

  predicate BreakAt(b: seq<Byte>)
    requires b != [] && |b| >= Width(b[0]) > 0
  {
    || b[0] == 0x0D || b[0] == 0x0A
    || (b[0] == 0xC2 && b[1] == 0x85)
    || (b[0] == 0xE2 && b[1] == 0x80 && (b[2] == 0xA8 || b[2] == 0xA9))
  }

  /** The tests on bytes and those on characters agree. */
  lemma SameClasses(c: Rune, rest: seq<Byte>)
    ensures Width(Encode(c)[0]) == |Encode(c)|
    ensures PrintableAt(Encode(c) + rest) == IsPrintable(c)
    ensures BreakAt(Encode(c) + rest) == IsBreak(c)
  {
    WidthIsLength(c);
    var b := Encode(c) + rest;
    assert forall i :: 0 <= i < |Encode(c)| ==> b[i] == Encode(c)[i];
  }

  predicate IsHex(c: Rune) {
    0x30 <= c <= 0x39 || 0x41 <= c <= 0x46 || 0x61 <= c <= 0x66
  }

  function AsHex(c: Rune): (d: nat)
    requires IsHex(c)
    ensures d < 16
  {
    if 0x41 <= c <= 0x46 then c - 0x41 + 10
    else if 0x61 <= c <= 0x66 then c - 0x61 + 10
    else c - 0x30
  }

  // ----- Hexadecimal codes -------------------------------------------------------------

  function Digit(d: nat): (c: Rune)
    requires d < 16
    ensures IsHex(c) && AsHex(c) == d
  {
    if d < 10 then 0x30 + d else 0x41 + d - 10
  }

  function Pow16(n: nat): (p: nat)
    ensures p > 0
  {
    if n == 0 then 1 else 16 * Pow16(n - 1)
  }

  /** `v` in `n` digits, the most significant first. */
  function Hex(v: nat, n: nat): (cs: seq<Rune>)
    ensures |cs| == n && forall k :: 0 <= k < n ==> IsHex(cs[k])
  {
    if n == 0 then [] else Hex(v / 16, n - 1) + [Digit(v % 16)]
  }

  function HexValue(cs: seq<Rune>): nat
    requires forall k :: 0 <= k < |cs| ==> IsHex(cs[k])
  {
    if cs == [] then 0 else 16 * HexValue(cs[..|cs| - 1]) + AsHex(cs[|cs| - 1])
  }

  lemma {:induction false} HexRoundTrip(v: nat, n: nat)
    requires v < Pow16(n)
    ensures HexValue(Hex(v, n)) == v
    decreases n
  {
    if n > 0 {
      HexRoundTrip(v / 16, n - 1);
      assert Hex(v, n)[..n - 1] == Hex(v / 16, n - 1);
    }
  }

  /** The digits may be computed from the front: the printer's loop. */
  lemma {:induction false} HexFromFront(v: nat, n: nat)
    requires n > 0
    ensures Hex(v, n) == [Digit((v / Pow16(n - 1)) % 16)] + Hex(v, n - 1)
    decreases n
  {
    if n > 1 {
      HexFromFront(v / 16, n - 1);
      DivDiv(v, Pow16(n - 2));
      assert Hex(v, n) == Hex(v / 16, n - 1) + [Digit(v % 16)];
      assert Hex(v, n - 1) == Hex(v / 16, n - 2) + [Digit(v % 16)];
    } else {
      assert Hex(v, 1) == Hex(v / 16, 0) + [Digit(v % 16)];
    }
  }

  lemma DivDiv(v: nat, p: nat)
    requires p > 0
    ensures (v / 16) / p == v / (16 * p)
  {
    var q := v / (16 * p);
    var r := v % (16 * p);
    assert v == 16 * p * q + r && r < 16 * p;
    assert v / 16 == p * q + r / 16 by {
      assert v == 16 * (p * q) + r;
    }
    assert r / 16 < p;
    DivUnique(v / 16, p, q, r / 16);
  }

  lemma DivUnique(x: int, p: int, q: int, r: int)
    requires p > 0 && x == p * q + r && 0 <= r < p
    ensures x / p == q
  {
    var y := x / p;
    assert p * (q - y) == x % p - r;
    Multiple(p, q - y);
  }

  lemma Multiple(p: int, d: int)
    requires p > 0
    ensures d >= 1 ==> p * d >= p
    ensures d <= -1 ==> p * d <= -p
  {
    if d >= 1 {
      assert p * d == p + p * (d - 1);
    } else if d <= -1 {
      assert p * d == -p + p * (d + 1);
    }
  }

  // ----- The printer -------------------------------------------------------------------

  datatype LineBreak = Cr | Ln | CrLn

  datatype Config = Config(indent: nat, bestWidth: int, unicode: bool, allowBreaks: bool, lineBreak: LineBreak)

  /** Where the output stands. */
  datatype Pen = Pen(column: nat, whitespace: bool, indention: bool)

  function BreakText(b: LineBreak): seq<Rune> {
    match b
    case Cr => [0x0D]
    case Ln => [0x0A]
    case CrLn => [0x0D, 0x0A]
  }

  function Spaces(n: nat): (cs: seq<Rune>)
    ensures |cs| == n && forall k :: 0 <= k < n ==> cs[k] == SPACE
  {
    seq(n, _ => SPACE)
  }

  predicate NeedsEscape(value: seq<Rune>, i: nat, unicode: bool)
    requires i < |value|
  {
    var c := value[i];
    !IsPrintable(c) || (!unicode && c > 0x7F) || value[0] == BOM || IsBreak(c) || c == QUOTE || c == BACKSLASH
  }

  /** The characters after the backslash. */
  function EscapeCode(v: Rune): (cs: seq<Rune>)
    ensures cs != []
  {
    if v == 0x00 then [0x30]
    else if v == 0x07 then [0x61]
    else if v == 0x08 then [0x62]
    else if v == 0x09 then [0x74]
    else if v == 0x0A then [0x6E]
    else if v == 0x0B then [0x76]
    else if v == 0x0C then [0x66]
    else if v == 0x0D then [0x72]
    else if v == 0x1B then [0x65]
    else if v == 0x22 then [0x22]
    else if v == 0x5C then [0x5C]
    else if v == 0x85 then [0x4E]
    else if v == 0xA0 then [0x5F]
    else if v == 0x2028 then [0x4C]
    else if v == 0x2029 then [0x50]
    else if v <= 0xFF then [0x78] + Hex(v, 2)
    else if v <= 0xFFFF then [0x75] + Hex(v, 4)
    else [0x55] + Hex(v, 8)
  }

  predicate NeedsBreak(pen: Pen, indent: nat) {
    !pen.indention || pen.column > indent || (pen.column == indent && !pen.whitespace)
  }

  function IndentText(pen: Pen, cfg: Config): seq<Rune> {
    if NeedsBreak(pen, cfg.indent) then BreakText(cfg.lineBreak) + Spaces(cfg.indent)
    else Spaces(if pen.column < cfg.indent then cfg.indent - pen.column else 0)
  }

  predicate Folds(value: seq<Rune>, i: nat, spaces: bool, pen: Pen, cfg: Config)
    requires i < |value|
  {
    cfg.allowBreaks && !spaces && pen.column > cfg.bestWidth && 0 < i < |value| - 1
  }

  /** What is written for `value[i..]`, and where it leaves the pen. */
  function Print(value: seq<Rune>, i: nat, spaces: bool, pen: Pen, cfg: Config): (r: (seq<Rune>, Pen))
    requires i <= |value|
    decreases |value| - i
  {
    if i == |value| then ([], pen)
    else if NeedsEscape(value, i, cfg.unicode) then
      var text := [BACKSLASH] + EscapeCode(value[i]);
      var rest := Print(value, i + 1, false, pen.(column := pen.column + |text|), cfg);
      (text + rest.0, rest.1)
    else if value[i] == SPACE && Folds(value, i, spaces, pen, cfg) then
      var guard := if value[i + 1] == SPACE then [BACKSLASH] else [];
      var column := (if NeedsBreak(pen, cfg.indent) || pen.column < cfg.indent then cfg.indent else pen.column)
          + |guard|;
      var rest := Print(value, i + 1, true, Pen(column, true, true), cfg);
      (IndentText(pen, cfg) + guard + rest.0, rest.1)
    else
      var rest := Print(value, i + 1, value[i] == SPACE, pen.(column := pen.column + 1), cfg);
      ([value[i]] + rest.0, rest.1)
  }

  /** What is written for one character, and what is left. */
  lemma PrintIs(value: seq<Rune>, i: nat, spaces: bool, pen: Pen, cfg: Config)
    requires i < |value|
    ensures NeedsEscape(value, i, cfg.unicode) ==>
      (var text := [BACKSLASH] + EscapeCode(value[i]);
       var rest := Print(value, i + 1, false, pen.(column := pen.column + |text|), cfg);
       Print(value, i, spaces, pen, cfg) == (text + rest.0, rest.1))
    ensures !NeedsEscape(value, i, cfg.unicode) && value[i] == SPACE && Folds(value, i, spaces, pen, cfg) ==>
      (var guard := if value[i + 1] == SPACE then [BACKSLASH] else [];
       var column := (if NeedsBreak(pen, cfg.indent) || pen.column < cfg.indent then cfg.indent else pen.column)
           + |guard|;
       var rest := Print(value, i + 1, true, Pen(column, true, true), cfg);
       i + 1 < |value| && Print(value, i, spaces, pen, cfg) == (IndentText(pen, cfg) + guard + rest.0, rest.1))
    ensures !NeedsEscape(value, i, cfg.unicode) && !(value[i] == SPACE && Folds(value, i, spaces, pen, cfg)) ==>
      (var rest := Print(value, i + 1, value[i] == SPACE, pen.(column := pen.column + 1), cfg);
       Print(value, i, spaces, pen, cfg) == ([value[i]] + rest.0, rest.1))
  {
    hide EscapeCode, NeedsEscape, IndentText;
  }

  class Output {
    var text: seq<Rune>
    var column: nat
    var whitespace: bool
    var indention: bool
    const cfg: Config

    constructor (cfg: Config, text: seq<Rune>, column: nat, whitespace: bool, indention: bool)
      ensures this.cfg == cfg && this.text == text
      ensures PenNow() == Pen(column, whitespace, indention)
    {
      this.cfg, this.text, this.column, this.whitespace, this.indention := cfg, text, column, whitespace, indention;
    }

    function PenNow(): Pen
      reads this
    {
      Pen(column, whitespace, indention)
    }

    method Put(c: Rune)
      modifies `text, `column
      ensures text == old(text) + [c] && column == old(column) + 1
    {
      text := text + [c];
      column := column + 1;
    }

    method PutBreak()
      modifies `text, `column
      ensures text == old(text) + BreakText(cfg.lineBreak) && column == 0
    {
      text := text + BreakText(cfg.lineBreak);
      column := 0;
    }

    method WriteIndent()
      modifies this
      ensures text == old(text) + IndentText(old(PenNow()), cfg)
      ensures whitespace && indention
      ensures column == if NeedsBreak(old(PenNow()), cfg.indent) || old(column) < cfg.indent then cfg.indent
        else old(column)
    {
      if !indention || column > cfg.indent || (column == cfg.indent && !whitespace) {
        PutBreak();
      }
      ghost var from, before := column, text;
      while column < cfg.indent
        invariant from <= column && (column <= cfg.indent || column == from)
        invariant text == before + Spaces(column - from)
        invariant whitespace == old(whitespace) && indention == old(indention)
        decreases cfg.indent - column
      {
        assert Spaces(column + 1 - from) == Spaces(column - from) + [SPACE];
        Put(SPACE);
      }
      whitespace := true;
      indention := true;
    }

    /** Writes a quote; the scalar then is neither white space nor indentation. */
    method WriteQuote(needWhitespace: bool)
      modifies this
      ensures var lead := if needWhitespace && !old(whitespace) then [SPACE] else [];
        && text == old(text) + lead + [QUOTE]
        && PenNow() == Pen(old(column) + |lead| + 1, false, false)
    {
      if needWhitespace && !whitespace {
        Put(SPACE);
      }
      Put(QUOTE);
      whitespace := false;
      indention := false;
    }

    /** The hexadecimal digits of an escape, from the front. */
    method WriteHex(v: nat, n: nat)
      modifies `text, `column
      ensures text == old(text) + Hex(v, n) && column == old(column) + n
    {
      var k := n;
      while k > 0
        invariant 0 <= k <= n && column == old(column) + n - k
        invariant text + Hex(v, k) == old(text) + Hex(v, n)
      {
        HexFromFront(v, k);
        k := k - 1;
        ghost var before := text;
        Put(Digit((v / Pow16(k)) % 16));
        assert before + ([Digit((v / Pow16(k)) % 16)] + Hex(v, k)) == text + Hex(v, k);
      }
    }

    method WriteEscape(v: Rune)
      modifies `text, `column
      ensures text == old(text) + ([BACKSLASH] + EscapeCode(v))
      ensures column == old(column) + 1 + |EscapeCode(v)|
    {
      Put(BACKSLASH);
      var code := EscapeCode(v);
      if |code| == 1 {
        Put(code[0]);
      } else {
        Put(code[0]);
        WriteHex(v, if v <= 0xFF then 2 else if v <= 0xFFFF then 4 else 8);
      }
    }

    /** One character of the scalar, or the fold that stands for it. */
    method WriteCharacter(value: seq<Rune>, i: nat, spaces: bool) returns (spaces': bool)
      requires i < |value|
      modifies this
      ensures old(text) + Print(value, i, spaces, old(PenNow()), cfg).0
           == text + Print(value, i + 1, spaces', PenNow(), cfg).0
    {
      hide EscapeCode, Print, NeedsEscape, Folds, IndentText;
      PrintIs(value, i, spaces, PenNow(), cfg);
      if NeedsEscape(value, i, cfg.unicode) {
        WriteEscape(value[i]);
        spaces' := false;
      } else if value[i] == SPACE && Folds(value, i, spaces, PenNow(), cfg) {
        WriteIndent();
        if value[i + 1] == SPACE {
          Put(BACKSLASH);
        }
        spaces' := true;
      } else {
        Put(value[i]);
        spaces' := value[i] == SPACE;
      }
    }

    method WriteDoubleQuoted(value: seq<Rune>)
      modifies this
      ensures var lead := if old(whitespace) then [] else [SPACE];
        && text == old(text) + lead + [QUOTE]
                   + Print(value, 0, false, Pen(old(column) + |lead| + 1, false, false), cfg).0 + [QUOTE]
      ensures !whitespace && !indention
    {
      WriteQuote(true);
      ghost var inside := Print(value, 0, false, PenNow(), cfg);
      ghost var before := text;
      var spaces := false;
      var i := 0;
      while i < |value|
        invariant i <= |value|
        invariant text + Print(value, i, spaces, PenNow(), cfg).0 == before + inside.0
      {
        spaces := WriteCharacter(value, i, spaces);
        i := i + 1;
      }
      WriteQuote(false);
    }
  }

  // ----- The scanner -------------------------------------------------------------------

  datatype Scan = Scanned(value: seq<Rune>, rest: seq<Rune>) | Failed(problem: string) {
    /** The same scan, with `cs` read before. */
    function After(cs: seq<Rune>): Scan {
      match this
      case Scanned(value, rest) => Scanned(cs + value, rest)
      case Failed(_) => this
    }
  }

  /** The character an escape stands for, and how many characters follow the backslash. */
  datatype Escape = Means(c: Rune, length: nat) | BadEscape(problem: string)

  function ReadCode(cs: seq<Rune>, n: nat): (e: Escape)
    ensures e.Means? ==> e.length == 1 + n <= 1 + |cs|
  {
    if |cs| < n || exists k :: 0 <= k < n && !IsHex(cs[k]) then BadEscape("did not find expected hexdecimal number")
    else
      var v := HexValue(cs[..n]);
      if 0xD800 <= v <= 0xDFFF || v > 0x10FFFF then BadEscape("found invalid Unicode character escape code")
      else Means(v, 1 + n)
  }

  /** Reads what follows a backslash. */
  function ReadEscape(cs: seq<Rune>): (e: Escape)
    ensures e.Means? ==> 1 <= e.length <= |cs|
  {
    if cs == [] then BadEscape("found unknown escape character")
    else
      var c := cs[0];
      if c == 0x30 then Means(0x00, 1)
      else if c == 0x61 then Means(0x07, 1)
      else if c == 0x62 then Means(0x08, 1)
      else if c == 0x74 || c == 0x09 then Means(0x09, 1)
      else if c == 0x6E then Means(0x0A, 1)
      else if c == 0x76 then Means(0x0B, 1)
      else if c == 0x66 then Means(0x0C, 1)
      else if c == 0x72 then Means(0x0D, 1)
      else if c == 0x65 then Means(0x1B, 1)
      else if c == 0x20 then Means(0x20, 1)
      else if c == 0x22 then Means(0x22, 1)
      else if c == 0x27 then Means(0x27, 1)
      else if c == 0x5C then Means(0x5C, 1)
      else if c == 0x4E then Means(0x85, 1)
      else if c == 0x5F then Means(0xA0, 1)
      else if c == 0x4C then Means(0x2028, 1)
      else if c == 0x50 then Means(0x2029, 1)
      else if c == 0x78 then ReadCode(cs[1..], 2)
      else if c == 0x75 then ReadCode(cs[1..], 4)
      else if c == 0x55 then ReadCode(cs[1..], 8)
      else BadEscape("found unknown escape character")
  }

  /** How many characters a line break takes, and what it is read as. */
  function BreakLength(cs: seq<Rune>): nat
    requires cs != [] && IsBreak(cs[0])
  {
    if |cs| > 1 && cs[0] == 0x0D && cs[1] == 0x0A then 2 else 1
  }

  function BreakValue(c: Rune): Rune
    requires IsBreak(c)
  {
    if c == 0x2028 || c == 0x2029 then c else 0x0A
  }

  predicate DocumentIndicator(cs: seq<Rune>) {
    && |cs| >= 3
    && ((cs[0] == cs[1] == cs[2] == 0x2D) || (cs[0] == cs[1] == cs[2] == 0x2E))
    && (|cs| == 3 || IsBlankZ(cs[3]))
  }

  /** White space inside the scalar: blanks of the current line, or line breaks. */
  datatype White = White(leading: bool, blanks: seq<Rune>, first: seq<Rune>, others: seq<Rune>)

  const NO_WHITE := White(false, [], [], [])

  /** What a stretch of white space is read as. */
  function Join(w: White): seq<Rune> {
    if !w.leading then w.blanks
    else if w.first != [] && w.first[0] == 0x0A then (if w.others == [] then [SPACE] else w.others)
    else w.first + w.others
  }

  function AddBlank(w: White, c: Rune): White {
    if w.leading then w else w.(blanks := w.blanks + [c])
  }

  function AddBreak(w: White, c: Rune): White {
    if w.leading then w.(others := w.others + [c]) else White(true, [], [c], [])
  }

  /** Reads from a place between two characters of the scalar. */
  function ScanText(cs: seq<Rune>, column: nat): Scan
    decreases |cs|, 1
  {
    if cs == [] || cs[0] == 0 then Failed("found unexpected end of stream")
    else if cs[0] == QUOTE then Scanned([], cs[1..])
    else if cs[0] == BACKSLASH && |cs| > 1 && IsBreak(cs[1]) then
      ScanWhite(cs[1 + BreakLength(cs[1..])..], 0, White(true, [], [], []))
    else if cs[0] == BACKSLASH then
      (match ReadEscape(cs[1..])
       case BadEscape(problem) => Failed(problem)
       case Means(c, length) => ScanText(cs[1 + length..], column + 1 + length).After([c]))
    else if IsBlank(cs[0]) || IsBreak(cs[0]) then ScanWhite(cs, column, NO_WHITE)
    else ScanText(cs[1..], column + 1).After([cs[0]])
  }

  /** Reads white space, then goes on unless there is a document indicator. */
  function ScanWhite(cs: seq<Rune>, column: nat, w: White): Scan
    decreases |cs|, if cs != [] && (IsBlank(cs[0]) || IsBreak(cs[0])) then 0 else 2
  {
    if cs != [] && IsBlank(cs[0]) then ScanWhite(cs[1..], column + 1, AddBlank(w, cs[0]))
    else if cs != [] && IsBreak(cs[0]) then
      ScanWhite(cs[BreakLength(cs)..], 0, AddBreak(w, BreakValue(cs[0])))
    else if cs != [] && cs[0] == QUOTE then Scanned(Join(w), cs[1..])
    else if column == 0 && DocumentIndicator(cs) then Failed("found unexpected document indicator")
    else ScanText(cs, column).After(Join(w))
  }

  /** The top of the scanner's loop, where document indicators are looked for. */
  function ScanTop(cs: seq<Rune>, column: nat): Scan {
    if column == 0 && DocumentIndicator(cs) then Failed("found unexpected document indicator")
    else ScanText(cs, column)
  }

  /** The steps of `ScanText`. */
  lemma TextSteps(cs: seq<Rune>, column: nat)
    requires cs != [] && !IsBlankZ(cs[0]) && cs[0] != QUOTE
    ensures cs[0] == BACKSLASH && |cs| > 1 && IsBreak(cs[1]) ==>
              ScanText(cs, column) == ScanWhite(cs[1..][BreakLength(cs[1..])..], 0, White(true, [], [], []))
    ensures cs[0] == BACKSLASH && !(|cs| > 1 && IsBreak(cs[1])) ==>
              match ReadEscape(cs[1..])
              case BadEscape(_) => ScanText(cs, column).Failed?
              case Means(c, length) =>
                ScanText(cs, column) == ScanText(cs[1 + length..], column + 1 + length).After([c])
    ensures cs[0] != BACKSLASH ==> ScanText(cs, column) == ScanText(cs[1..], column + 1).After([cs[0]])
  {
    if |cs| > 1 && IsBreak(cs[1]) {
      assert cs[1 + BreakLength(cs[1..])..] == cs[1..][BreakLength(cs[1..])..];
    }
  }

  lemma TextEnds(cs: seq<Rune>, column: nat)
    ensures cs == [] || cs[0] == 0 ==> ScanText(cs, column).Failed?
    ensures cs != [] && cs[0] == QUOTE ==> ScanText(cs, column) == Scanned([], cs[1..])
  {
  }

  /** Where the non-blank characters end, white space, perhaps none, begins. */
  lemma TextToWhite(cs: seq<Rune>, column: nat)
    requires cs == [] || IsBlankZ(cs[0])
    ensures ScanText(cs, column) == ScanWhite(cs, column, NO_WHITE)
  {
  }

  lemma WhiteToTop(cs: seq<Rune>, column: nat, w: White)
    requires cs == [] || (!IsBlank(cs[0]) && !IsBreak(cs[0]))
    ensures ScanWhite(cs, column, w) == ScanTop(cs, column).After(Join(w))
  {
    if cs != [] && cs[0] == QUOTE {
      assert Join(w) + [] == Join(w);
    }
  }

  lemma AfterAfter(scan: Scan, a: seq<Rune>, b: seq<Rune>)
    ensures scan.After(a).After(b) == scan.After(b + a)
    ensures scan.After([]) == scan
  {
    if scan.Scanned? {
      assert b + (a + scan.value) == b + a + scan.value;
      assert [] + scan.value == scan.value;
    }
  }

  class Scanner {
    const buffer: seq<Rune>
    var pos: nat
    var column: nat

    constructor (buffer: seq<Rune>, column: nat)
      ensures this.buffer == buffer && pos == 0 && this.column == column
    {
      this.buffer, pos, this.column := buffer, 0, column;
    }

    function Rest(): seq<Rune>
      requires pos <= |buffer|
      reads this
    {
      buffer[pos..]
    }

    /** Past the end of the input there is a NUL. */
    function Peek(k: nat): Rune
      reads this
    {
      if pos + k < |buffer| then buffer[pos + k] else 0
    }

    method Skip(n: nat)
      requires pos + n <= |buffer|
      modifies this
      ensures pos == old(pos) + n && column == old(column) + n
      ensures Rest() == old(Rest())[n..]
    {
      pos := pos + n;
      column := column + n;
    }

    method SkipLine()
      requires pos < |buffer| && IsBreak(buffer[pos])
      modifies this
      ensures pos <= |buffer| && column == 0 && pos == old(pos) + BreakLength(old(Rest()))
      ensures Rest() == old(Rest())[BreakLength(old(Rest()))..]
    {
      if Peek(0) == 0x0D && Peek(1) == 0x0A {
        pos := pos + 2;
      } else {
        pos := pos + 1;
      }
      column := 0;
    }

    /** The digits of a `\\x`, `\\u` or `\\U` escape. */
    method ReadDigits(n: nat) returns (e: Escape)
      requires pos + 2 <= |buffer|
      ensures e == ReadCode(buffer[pos + 2..], n)
    {
      ghost var cs := buffer[pos + 2..];
      var value := 0;
      for k := 0 to n
        invariant k <= |cs| && forall j :: 0 <= j < k ==> IsHex(cs[j])
        invariant value == HexValue(cs[..k])
      {
        if !IsHex(Peek(2 + k)) {
          return BadEscape("did not find expected hexdecimal number");
        }
        assert cs[..k + 1][..k] == cs[..k];
        value := 16 * value + AsHex(Peek(2 + k));
      }
      if 0xD800 <= value <= 0xDFFF || value > 0x10FFFF {
        return BadEscape("found invalid Unicode character escape code");
      }
      e := Means(value, 1 + n);
    }

    /** The escape at the current position. */
    method ReadEscapeHere() returns (e: Escape)
      requires pos < |buffer| && buffer[pos] == BACKSLASH
      ensures e == ReadEscape(Rest()[1..])
    {
      var c := Peek(1);
      if c == 0x78 {
        e := ReadDigits(2);
      } else if c == 0x75 {
        e := ReadDigits(4);
      } else if c == 0x55 {
        e := ReadDigits(8);
      } else {
        e := ReadEscape(buffer[pos + 1..]);
      }
    }

    /** Consumes non-blank characters, up to white space, a quote or an escaped line break. */
    method ReadDark(s: seq<Rune>) returns (s': seq<Rune>, leading: bool, failed: bool, problem: string)
      requires pos <= |buffer|
      modifies this
      ensures old(pos) <= pos <= |buffer|
      ensures failed ==> ScanText(old(Rest()), old(column)).Failed?
      ensures !failed && leading ==>
                ScanText(old(Rest()), old(column)).After(s) ==
                    ScanWhite(Rest(), column, White(true, [], [], [])).After(s')
      ensures !failed && !leading ==>
                && ScanText(old(Rest()), old(column)).After(s) == ScanText(Rest(), column).After(s')
                && (IsBlankZ(Peek(0)) || Peek(0) == QUOTE)
      ensures leading ==> old(pos) < pos
      ensures !failed && !leading && pos == old(pos) ==> s' == s && column == old(column)
    {
      hide ScanText, ScanWhite, ReadEscape;
      s', leading, failed, problem := s, false, false, "";
      while !IsBlankZ(Peek(0)) && Peek(0) != QUOTE
        invariant old(pos) <= pos <= |buffer|
        invariant ScanText(old(Rest()), old(column)).After(s) == ScanText(Rest(), column).After(s')
        invariant pos == old(pos) ==> s' == s && column == old(column)
        decreases |buffer| - pos
      {
        TextSteps(Rest(), column);
        if Peek(0) == BACKSLASH && IsBreak(Peek(1)) {
          Skip(1);
          SkipLine();
          leading := true;
          return;
        } else if Peek(0) == BACKSLASH {
          var e := ReadEscapeHere();
          if e.BadEscape? {
            failed, problem := true, e.problem;
            return;
          }
          Skip(1 + e.length);
          AfterAfter(ScanText(Rest(), column), [e.c], s');
          s' := s' + [e.c];
        } else {
          var c := Peek(0);
          Skip(1);
          AfterAfter(ScanText(Rest(), column), [c], s');
          s' := s' + [c];
        }
      }
    }

    /** Consumes blanks and line breaks. */
    method ReadWhite(w: White) returns (w': White)
      requires pos <= |buffer|
      modifies this
      ensures old(pos) <= pos <= |buffer|
      ensures ScanWhite(old(Rest()), old(column), w) == ScanWhite(Rest(), column, w')
      ensures !IsBlank(Peek(0)) && !IsBreak(Peek(0))
      ensures old(IsBlank(Peek(0)) || IsBreak(Peek(0))) ==> old(pos) < pos
    {
      w' := w;
      while IsBlank(Peek(0)) || IsBreak(Peek(0))
        invariant old(pos) <= pos <= |buffer|
        invariant ScanWhite(old(Rest()), old(column), w) == ScanWhite(Rest(), column, w')
        invariant old(IsBlank(Peek(0)) || IsBreak(Peek(0))) && pos == old(pos) ==> IsBlank(Peek(0)) || IsBreak(Peek(0))
        decreases |buffer| - pos
      {
        var c := Peek(0);
        if IsBlank(c) {
          w' := AddBlank(w', c);
          Skip(1);
        } else {
          w' := AddBreak(w', BreakValue(c));
          SkipLine();
        }
      }
    }

    /** Scans a double-quoted scalar from its opening quote on. */
    method ScanFlowScalar() returns (r: Scan)
      requires pos < |buffer| && buffer[pos] == QUOTE
      modifies this
      ensures r.Scanned? ==> r == ScanText(old(Rest())[1..], old(column) + 1)
      ensures r.Failed? ==> ScanText(old(Rest())[1..], old(column) + 1).Failed?
      ensures r.Scanned? ==> pos <= |buffer| && Rest() == r.rest
    {
      hide ScanText, ScanWhite;
      Skip(1);
      ghost var total := ScanText(Rest(), column);
      AfterAfter(total, [], []);
      var s: seq<Rune> := [];
      while true
        invariant pos <= |buffer| && total == ScanTop(Rest(), column).After(s)
        decreases |buffer| - pos
      {
        if column == 0 && DocumentIndicator(buffer[pos..]) {
          return Failed("found unexpected document indicator");
        }
        TextEnds(Rest(), column);
        if Peek(0) == 0 {
          return Failed("found unexpected end of stream");
        }
        var leading, failed, problem;
        s, leading, failed, problem := ReadDark(s);
        if failed {
          return Failed(problem);
        }
        TextEnds(Rest(), column);
        if !leading && Peek(0) == QUOTE {
          assert s + [] == s;
          Skip(1);
          return Scanned(s, buffer[pos..]);
        }
        if !leading {
          TextToWhite(Rest(), column);
        }
        var w := ReadWhite(White(leading, [], [], []));
        WhiteToTop(Rest(), column, w);
        AfterAfter(ScanTop(Rest(), column), Join(w), s);
        s := s + Join(w);
      }
    }
  }

  // ----- The round trip ----------------------------------------------------------------

  lemma ShortReads(v: Rune, tail: seq<Rune>)
    requires |EscapeCode(v)| == 1
    ensures ReadEscape(EscapeCode(v) + tail) == Means(v, 1)
    ensures !IsBreak(EscapeCode(v)[0])
  {
    hide Hex, ReadCode;
    assert |Hex(v, 2)| == 2 && |Hex(v, 4)| == 4 && |Hex(v, 8)| == 8;
    assert (EscapeCode(v) + tail)[0] == EscapeCode(v)[0];
  }

  lemma CodedReads(c: Rune, v: Rune, n: nat, tail: seq<Rune>)
    requires (c, n) == (0x78, 2) || (c, n) == (0x75, 4) || (c, n) == (0x55, 8)
    requires n == 2 ==> v <= 0xFF
    requires n == 4 ==> v <= 0xFFFF
    ensures ReadEscape([c] + Hex(v, n) + tail) == Means(v, 1 + n) && !IsBreak(c)
  {
    hide Hex, HexValue, Pow16, ReadCode;
    Powers();
    HexRoundTrip(v, n);
    assert ([c] + Hex(v, n) + tail)[1..] == Hex(v, n) + tail;
    CodeReads(v, n, tail);
  }

  lemma LongReads(v: Rune, tail: seq<Rune>)
    requires |EscapeCode(v)| != 1
    ensures ReadEscape(EscapeCode(v) + tail) == Means(v, |EscapeCode(v)|)
    ensures !IsBreak(EscapeCode(v)[0])
  {
    hide Hex, ReadEscape;
    if v <= 0xFF {
      CodedReads(0x78, v, 2, tail);
    } else if v <= 0xFFFF {
      CodedReads(0x75, v, 4, tail);
    } else {
      CodedReads(0x55, v, 8, tail);
    }
  }

  lemma EscapeReads(v: Rune, tail: seq<Rune>)
    ensures ReadEscape(EscapeCode(v) + tail) == Means(v, |EscapeCode(v)|)
    ensures !IsBreak(EscapeCode(v)[0])
  {
    hide EscapeCode, ReadEscape;
    if |EscapeCode(v)| == 1 {
      ShortReads(v, tail);
    } else {
      LongReads(v, tail);
    }
  }

  lemma Powers()
    ensures Pow16(2) == 0x100 && Pow16(4) == 0x1_0000 && Pow16(8) == 0x1_0000_0000
  {
    assert Pow16(4) == 16 * 16 * Pow16(2);
    assert Pow16(8) == 16 * 16 * 16 * 16 * Pow16(4);
  }

  lemma CodeReads(v: Rune, n: nat, tail: seq<Rune>)
    requires HexValue(Hex(v, n)) == v
    ensures ReadCode(Hex(v, n) + tail, n) == Means(v, 1 + n)
  {
    var cs := Hex(v, n) + tail;
    assert cs[..n] == Hex(v, n);
    assert forall k :: 0 <= k < n ==> cs[k] == Hex(v, n)[k];
  }

  /** White space ends at a character that is neither blank nor a break. */
  lemma WhiteEnds(cs: seq<Rune>, column: nat, w: White)
    requires cs != [] && !IsBlank(cs[0]) && !IsBreak(cs[0]) && column > 0
    ensures ScanWhite(cs, column, w) == ScanText(cs, column).After(Join(w))
  {
    if cs[0] == QUOTE {
      assert Join(w) + [] == Join(w);
    }
  }

  lemma {:induction false} SkipIndent(n: nat, cs: seq<Rune>, column: nat, w: White)
    requires w.leading
    ensures ScanWhite(Spaces(n) + cs, column, w) == ScanWhite(cs, column + n, w)
    decreases n
  {
    if n == 0 {
      assert Spaces(0) + cs == cs;
    } else {
      assert (Spaces(n) + cs)[1..] == Spaces(n - 1) + cs;
      SkipIndent(n - 1, cs, column + 1, w);
    }
  }

  /** A fold is read as one space. */
  lemma FoldReads(cfg: Config, cs: seq<Rune>, column: nat)
    requires cfg.indent > 0 && cs != [] && !IsBlank(cs[0]) && !IsBreak(cs[0])
    ensures ScanText(BreakText(cfg.lineBreak) + Spaces(cfg.indent) + cs, column)
         == ScanText(cs, cfg.indent).After([SPACE])
  {
    var br, indent := BreakText(cfg.lineBreak), Spaces(cfg.indent);
    var all := br + indent + cs;
    var w := White(true, [], [0x0A], []);
    assert all == br + (indent + cs);
    assert BreakLength(all) == |br| && all[|br|..] == indent + cs;
    assert ScanText(all, column) == ScanWhite(indent + cs, 0, w);
    SkipIndent(cfg.indent, cs, 0, w);
    WhiteEnds(cs, cfg.indent, w);
  }

  /** After a fold at least one character is written before the next one. */
  predicate PenAhead(pen: Pen, spaces: bool, cfg: Config) {
    pen.indention ==> pen.column >= cfg.indent && (!spaces ==> pen.column > cfg.indent)
  }

  function Written(value: seq<Rune>, i: nat, spaces: bool, pen: Pen, cfg: Config, rest: seq<Rune>): (cs: seq<Rune>)
    requires i <= |value|
    ensures cs != []
  {
    Print(value, i, spaces, pen, cfg).0 + [QUOTE] + rest
  }

  /** What is written for anything but a plain space does not start with white space. */
  lemma StartsDark(value: seq<Rune>, i: nat, spaces: bool, pen: Pen, cfg: Config, rest: seq<Rune>)
    requires i <= |value| && (i < |value| ==> value[i] != SPACE || NeedsEscape(value, i, cfg.unicode))
    ensures var c := Written(value, i, spaces, pen, cfg, rest)[0]; !IsBlank(c) && !IsBreak(c)
  {
  }

  lemma WrittenEscape(value: seq<Rune>, i: nat, spaces: bool, pen: Pen, cfg: Config, rest: seq<Rune>)
      returns (pen': Pen)
    requires i < |value| && NeedsEscape(value, i, cfg.unicode)
    ensures Written(value, i, spaces, pen, cfg, rest)
         == [BACKSLASH] + (EscapeCode(value[i]) + Written(value, i + 1, false, pen', cfg, rest))
    ensures PenAhead(pen, spaces, cfg) ==> PenAhead(pen', false, cfg)
  {
    hide EscapeCode, NeedsEscape;
    pen' := pen.(column := pen.column + 1 + |EscapeCode(value[i])|);
    var printed := Print(value, i + 1, false, pen', cfg).0;
    assert Print(value, i, spaces, pen, cfg).0 == [BACKSLASH] + EscapeCode(value[i]) + printed;
  }

  lemma WrittenPlain(value: seq<Rune>, i: nat, spaces: bool, pen: Pen, cfg: Config, rest: seq<Rune>) returns (pen': Pen)
    requires i < |value| && !NeedsEscape(value, i, cfg.unicode)
    requires !(value[i] == SPACE && Folds(value, i, spaces, pen, cfg))
    ensures Written(value, i, spaces, pen, cfg, rest)
         == [value[i]] + Written(value, i + 1, value[i] == SPACE, pen', cfg, rest)
    ensures PenAhead(pen, spaces, cfg) ==> PenAhead(pen', value[i] == SPACE, cfg)
  {
    pen' := pen.(column := pen.column + 1);
    var printed := Print(value, i + 1, value[i] == SPACE, pen', cfg).0;
    assert Print(value, i, spaces, pen, cfg).0 == [value[i]] + printed;
  }

  lemma WrittenFold(value: seq<Rune>, i: nat, spaces: bool, pen: Pen, cfg: Config, rest: seq<Rune>) returns (pen': Pen)
    requires i < |value| && !NeedsEscape(value, i, cfg.unicode) && value[i] == SPACE &&
      Folds(value, i, spaces, pen, cfg)
    requires PenAhead(pen, spaces, cfg)
    ensures Written(value, i, spaces, pen, cfg, rest)
         == BreakText(cfg.lineBreak) + Spaces(cfg.indent)
            + ((if value[i + 1] == SPACE then [BACKSLASH] else []) + Written(value, i + 1, true, pen', cfg, rest))
    ensures PenAhead(pen', true, cfg)
  {
    hide NeedsEscape;
    var guard := if value[i + 1] == SPACE then [BACKSLASH] else [];
    pen' := Pen(cfg.indent + |guard|, true, true);
    assert NeedsBreak(pen, cfg.indent);
    var printed := Print(value, i + 1, true, pen', cfg).0;
    assert IndentText(pen, cfg) == BreakText(cfg.lineBreak) + Spaces(cfg.indent);
    assert Print(value, i, spaces, pen, cfg).0 == IndentText(pen, cfg) + guard + printed;
    Reassociate(IndentText(pen, cfg), guard, printed, rest);
  }

  lemma Reassociate(a: seq<Rune>, b: seq<Rune>, c: seq<Rune>, rest: seq<Rune>)
    ensures (a + b + c) + [QUOTE] + rest == a + (b + (c + [QUOTE] + rest))
  {
  }

  lemma ScansEscape(v: Rune, cs: seq<Rune>, column: nat)
    ensures ScanText([BACKSLASH] + (EscapeCode(v) + cs), column)
         == ScanText(cs, column + 1 + |EscapeCode(v)|).After([v])
  {
    hide ReadEscape, EscapeCode;
    var code := EscapeCode(v);
    var all := [BACKSLASH] + (code + cs);
    EscapeReads(v, cs);
    assert all[1..] == code + cs && all[1 + |code|..] == cs;
  }

  lemma ScansPlain(c: Rune, cs: seq<Rune>, column: nat)
    requires c != 0 && !IsBlank(c) && !IsBreak(c) && c != QUOTE && c != BACKSLASH
    ensures ScanText([c] + cs, column) == ScanText(cs, column + 1).After([c])
  {
    assert ([c] + cs)[1..] == cs;
  }

  lemma ScansSpace(cs: seq<Rune>, column: nat, blanks: seq<Rune>)
    ensures ScanText([SPACE] + cs, column) == ScanWhite(cs, column + 1, White(false, [SPACE], [], []))
    ensures ScanWhite([SPACE] + cs, column, White(false, blanks, [], []))
         == ScanWhite(cs, column + 1, White(false, blanks + [SPACE], [], []))
  {
    assert ([SPACE] + cs)[1..] == cs && [] + [SPACE] == [SPACE];
  }

  lemma ScansEscapedSpace(cs: seq<Rune>, column: nat)
    ensures ScanText([BACKSLASH] + ([SPACE] + cs), column) == ScanText(cs, column + 2).After([SPACE])
  {
    var all := [BACKSLASH] + ([SPACE] + cs);
    assert all[1..] == [SPACE] + cs && all[2..] == cs;
  }

  lemma EndReads(value: seq<Rune>, spaces: bool, pen: Pen, cfg: Config, rest: seq<Rune>, column: nat)
    ensures ScanText(Written(value, |value|, spaces, pen, cfg, rest), column) == Scanned([], rest)
  {
    assert Written(value, |value|, spaces, pen, cfg, rest)[1..] == rest;
  }

  lemma {:induction false} TextReads(value: seq<Rune>, i: nat, spaces: bool, pen: Pen, cfg: Config, rest: seq<Rune>,
      column: nat)
    requires i <= |value| && cfg.indent > 0 && column > 0 && PenAhead(pen, spaces, cfg)
    ensures ScanText(Written(value, i, spaces, pen, cfg, rest), column) == Scanned(value[i..], rest)
    decreases |value| - i, 1
  {
    hide Written, ScanText, ScanWhite, EscapeCode, NeedsEscape, Folds, PenAhead, IsBlank, IsBreak, Print;
    if i == |value| {
      EndReads(value, spaces, pen, cfg, rest, column);
    } else {
      assert value[i..] == [value[i]] + value[i + 1..];
      if NeedsEscape(value, i, cfg.unicode) {
        var pen' := WrittenEscape(value, i, spaces, pen, cfg, rest);
        ScansEscape(value[i], Written(value, i + 1, false, pen', cfg, rest), column);
        TextReads(value, i + 1, false, pen', cfg, rest, column + 1 + |EscapeCode(value[i])|);
      } else if value[i] == SPACE && Folds(value, i, spaces, pen, cfg) {
        FoldedReads(value, i, spaces, pen, cfg, rest, column);
      } else {
        var pen' := WrittenPlain(value, i, spaces, pen, cfg, rest);
        var cs' := Written(value, i + 1, value[i] == SPACE, pen', cfg, rest);
        if value[i] == SPACE {
          ScansSpace(cs', column, []);
          WhiteReads(value, i + 1, pen', cfg, rest, column + 1, [SPACE]);
        } else {
          PlainIsText(value, i, cfg.unicode);
          ScansPlain(value[i], cs', column);
          TextReads(value, i + 1, false, pen', cfg, rest, column + 1);
        }
      }
    }
  }

  lemma PlainIsText(value: seq<Rune>, i: nat, unicode: bool)
    requires i < |value| && !NeedsEscape(value, i, unicode) && value[i] != SPACE
    ensures value[i] != 0 && !IsBlank(value[i]) && !IsBreak(value[i]) && value[i] != QUOTE && value[i] != BACKSLASH
  {
  }

  /** A folded space, with its guard if another space follows. */
  lemma {:induction false} FoldedReads(value: seq<Rune>, i: nat, spaces: bool, pen: Pen, cfg: Config, rest: seq<Rune>,
      column: nat)
    requires i < |value| && cfg.indent > 0 && column > 0 && PenAhead(pen, spaces, cfg)
    requires !NeedsEscape(value, i, cfg.unicode) && value[i] == SPACE && Folds(value, i, spaces, pen, cfg)
    ensures ScanText(Written(value, i, spaces, pen, cfg, rest), column) == Scanned(value[i..], rest)
    decreases |value| - i, 0
  {
    hide Print, ScanText, ScanWhite, PenAhead;
    var pen' := WrittenFold(value, i, spaces, pen, cfg, rest);
    var cs' := Written(value, i + 1, true, pen', cfg, rest);
    assert value[i..] == [SPACE] + value[i + 1..];
    if value[i + 1] == SPACE {
      FoldReads(cfg, [BACKSLASH] + cs', column);
      var pen'' := WrittenPlain(value, i + 1, true, pen', cfg, rest);
      var cs'' := Written(value, i + 2, true, pen'', cfg, rest);
      ScansEscapedSpace(cs'', cfg.indent);
      TextReads(value, i + 2, true, pen'', cfg, rest, cfg.indent + 2);
      assert value[i + 1..] == [SPACE] + value[i + 2..];
    } else {
      assert [] + cs' == cs';
      StartsDark(value, i + 1, true, pen', cfg, rest);
      FoldReads(cfg, cs', column);
      TextReads(value, i + 1, true, pen', cfg, rest, cfg.indent);
    }
  }

  /** The rest of a run of spaces, `blanks` of which have been read. */
  lemma {:induction false} WhiteReads(value: seq<Rune>, i: nat, pen: Pen, cfg: Config, rest: seq<Rune>, column: nat,
      blanks: seq<Rune>)
    requires i <= |value| && cfg.indent > 0 && column > 0 && PenAhead(pen, true, cfg)
    ensures ScanWhite(Written(value, i, true, pen, cfg, rest), column, White(false, blanks, [], []))
         == Scanned(blanks + value[i..], rest)
    decreases |value| - i, 2
  {
    hide ScanText, ScanWhite, PenAhead, Print, Written;
    if i < |value| && value[i] == SPACE && !NeedsEscape(value, i, cfg.unicode) {
      var pen' := WrittenPlain(value, i, true, pen, cfg, rest);
      ScansSpace(Written(value, i + 1, true, pen', cfg, rest), column, blanks);
      WhiteReads(value, i + 1, pen', cfg, rest, column + 1, blanks + [SPACE]);
      assert blanks + [SPACE] + value[i + 1..] == blanks + value[i..];
    } else {
      StartsDark(value, i, true, pen, cfg, rest);
      WhiteEnds(Written(value, i, true, pen, cfg, rest), column, White(false, blanks, [], []));
      TextReads(value, i, true, pen, cfg, rest, column);
    }
  }

  /** Scanning what was printed gives the value back, whatever the width, the line break and
    * the escaping of non-ASCII characters, and leaves what comes after it. */
  lemma RoundTrip(value: seq<Rune>, cfg: Config, printColumn: nat, scanColumn: nat, rest: seq<Rune>)
    requires cfg.indent > 0 && scanColumn > 0
    ensures ScanText(Print(value, 0, false, Pen(printColumn, false, false), cfg).0 + [QUOTE] + rest, scanColumn)
         == Scanned(value, rest)
  {
    TextReads(value, 0, false, Pen(printColumn, false, false), cfg, rest, scanColumn);
    assert value[0..] == value;
  }
}
