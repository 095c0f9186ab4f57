/** What the character references of HTML stand for. */
module HtmlEntities {
  import opened HtmlEscape
  import Utf8

  // ----- Numbers --------------------------------------------------------------------------

  /** Is `c` the digit of value `d`, by the codes of the figures and of small and capital letters? */
  predicate Spells(c: char, d: nat) {
    if d < 10 then c as int == 48 + d else d < 16 && (c as int == 87 + d || c as int == 55 + d)
  }

  function Base(hex: bool): nat {
    if hex then 16 else 10
  }

  ghost predicate IsDigit(c: char, hex: bool) {
    exists d: nat :: d < Base(hex) && Spells(c, d)
  }

  lemma DigitIs(c: char, hex: bool)
    ensures DigitOf(c, hex) >= 0 <==> IsDigit(c, hex)
    ensures forall d: nat :: d < Base(hex) && Spells(c, d) ==> DigitOf(c, hex) == d
  {
    var d := DigitOf(c, hex);
    assert d >= 0 ==> d < Base(hex) && Spells(c, d);
  }

  /** Is `n` the number that `digits` spells? */
  ghost predicate IsNumber(digits: string, hex: bool, n: nat) {
    if digits == "" then n == 0
    else
      var last := |digits| - 1;
      && n % Base(hex) < 16 && Spells(digits[last], n % Base(hex))
      && IsNumber(digits[..last], hex, n / Base(hex))
  }

  /** `x`, cut to 32 bits with a sign. */
  function Signed(x: int): int {
    var r := x % 0x1_0000_0000;
    if r >= 0x8000_0000 then r - 0x1_0000_0000 else r
  }

  lemma WrapIs(x: int)
    ensures Wrap(x) == Signed(x)
  {
  }

  /** Cutting early or late is the same. */
  lemma WrapStep(x: int, hex: bool, d: int)
    ensures Wrap((if hex then 16 else 10) * Wrap(x) + d) == Wrap(Base(hex) * x + d)
  {
    var b: int := Base(hex);
    var q := (x + 0x8000_0000) / 0x1_0000_0000;
    assert Wrap(x) == x - 0x1_0000_0000 * q;
    WrapShift(b * x + d, 0 - b * q);
    assert b * Wrap(x) + d == b * x + d + 0x1_0000_0000 * (0 - b * q);
  }

  lemma WrapShift(x: int, k: int)
    ensures Wrap(x + 0x1_0000_0000 * k) == Wrap(x)
  {
  }

  lemma OneDigit(s: string, i: nat, hex: bool, x: int, d: nat)
    requires i < |s| && d < Base(hex) && Spells(s[i], d)
    ensures Digits(s, i, hex, Wrap(x)) == Digits(s, i + 1, hex, Wrap(Base(hex) * x + d))
  {
    hide DigitOf, Wrap;
    DigitIs(s[i], hex);
    WrapStep(x, hex, d);
  }

  /** The digits between `i` and `j` are read as their number. */
  lemma {:induction false} DigitsRead(s: string, i: nat, j: nat, hex: bool, n: nat)
    requires i <= j <= |s| && IsNumber(s[i..j], hex, n)
    ensures Digits(s, i, hex, 0) == Digits(s, j, hex, Wrap(n))
    decreases j
  {
    hide Digits, Wrap, Spells;
    if i < j {
      var digits := s[i..j];
      assert digits[..|digits| - 1] == s[i..j - 1];
      DigitsRead(s, i, j - 1, hex, n / Base(hex));
      OneDigit(s, j - 1, hex, n / Base(hex), n % Base(hex));
      assert Base(hex) * (n / Base(hex)) + n % Base(hex) == n;
    } else {
      Zero();
    }
  }

  lemma Zero()
    ensures Wrap(0) == 0
  {
  }

  /** The characters of Windows 1252 from 0x80 to 0x9F. */
  function Windows(x: int): int {
    match x
    case 0x80 => 0x20AC
    case 0x82 => 0x201A
    case 0x83 => 0x0192
    case 0x84 => 0x201E
    case 0x85 => 0x2026
    case 0x86 => 0x2020
    case 0x87 => 0x2021
    case 0x88 => 0x02C6
    case 0x89 => 0x2030
    case 0x8A => 0x0160
    case 0x8B => 0x2039
    case 0x8C => 0x0152
    case 0x8E => 0x017D
    case 0x91 => 0x2018
    case 0x92 => 0x2019
    case 0x93 => 0x201C
    case 0x94 => 0x201D
    case 0x95 => 0x2022
    case 0x96 => 0x2013
    case 0x97 => 0x2014
    case 0x98 => 0x02DC
    case 0x99 => 0x2122
    case 0x9A => 0x0161
    case 0x9B => 0x203A
    case 0x9C => 0x0153
    case 0x9E => 0x017E
    case 0x9F => 0x0178
    case _ => x
  }

  /** The character that the number `x` refers to; U+FFFD if there is none. */
  function Character(x: int): Utf8.Rune {
    var c := Windows(x);
    if 0 < c < 0xD800 || 0xE000 <= c < 0x11_0000 then c else 0xFFFD
  }

  /** Is `text` the UTF-8 encoding of `c`? */
  ghost predicate Encodes(text: string, c: Utf8.Rune) {
    && (forall i :: 0 <= i < |text| ==> text[i] as int < 256)
    && text != "" && Utf8.Step8(Codes(text)) == Utf8.Char(c, |text|)
  }

  ghost function Codes(text: string): seq<Utf8.Byte>
    requires forall i :: 0 <= i < |text| ==> text[i] as int < 256
  {
    seq(|text|, i requires 0 <= i < |text| => text[i] as int)
  }

  lemma RuneEncodes(x: int, c: Utf8.Rune)
    requires c == if 0 <= x < 0x11_0000 && !(0xD800 <= x < 0xE000) then x else 0xFFFD
    ensures Encodes(EncodeRune(x), c)
  {
    hide Utf8.Step8, Utf8.Encode;
    var text, bytes := EncodeRune(x), Utf8.Encode(c);
    assert forall i :: 0 <= i < |text| ==> text[i] as int == bytes[i];
    assert Codes(text) == bytes;
    Utf8.Decodes8(c, []);
    assert bytes + [] == bytes;
  }

  lemma ReplaceIs(x: int)
    ensures var r := Replace(x);
      Character(x) == if 0 <= r < 0x11_0000 && !(0xD800 <= r < 0xE000) then r else 0xFFFD
  {
    hide Windows, WINDOWS_1252;
    WindowsIs(x);
  }

  lemma WindowsIs(x: int)
    ensures Windows(x) == if 0x80 <= x <= 0x9F then WINDOWS_1252[x - 0x80] else x
    ensures 0x80 <= x <= 0x9F ==> 0x80 <= Windows(x) < 0xD800
  {
  }

  lemma CharacterIs(x: int)
    ensures Encodes(EncodeRune(Replace(x)), Character(x))
  {
    hide Encodes, EncodeRune, Replace, Character;
    ReplaceIs(x);
    RuneEncodes(Replace(x), Character(x));
  }

  // ----- Numeric references ---------------------------------------------------------------

  function Reference(mark: string, digits: string, tail: string): string {
    "&#" + mark + digits + tail
  }

  /** A numeric reference is decoded to the character of its number, in 32 bits, unless it is
    * three bytes or less long; a semicolon belongs to it. */
  lemma NumbersDecode(mark: string, digits: string, n: nat, tail: string, attribute: bool, t: Tables)
    requires mark in {"", "x", "X"} && IsNumber(digits, mark != "", n)
    requires tail != "" ==> !IsDigit(tail[0], mark != "")
    requires mark == "" && digits == "" && tail != "" ==> tail[0] !in {'x', 'X'}
    ensures var s := Reference(mark, digits, tail);
      var end := 2 + |mark| + |digits| + if tail != "" && tail[0] == ';' then 1 else 0;
      if end <= 3 then Next(s, attribute, t) == ("&", 1)
      else exists text :: Next(s, attribute, t) == (text, end) && Encodes(text, Character(Signed(n)))
  {
    hide Digits, EncodeRune, Replace, Encodes, Character, IsNumber, IsDigit, Wrap, Signed;
    var s := Reference(mark, digits, tail);
    var hex, i := mark != "", 2 + |mark|;
    var j := i + |digits|;
    assert s[i..j] == digits && s[j..] == tail;
    assert s[0] == '&' && s[1] == '#' && (mark != "" ==> s[2] == mark[0]);
    if digits != "" {
      FirstFigure(digits, hex, n);
    }
    assert digits != "" ==> s[i] == digits[0];
    assert j < |s| ==> s[j] == tail[0];
    DigitsRead(s, i, j, hex, n);
    DigitsStop(s, j, hex, Wrap(n));
    WrapIs(n);
    CharacterIs(Wrap(n));
  }

  lemma DigitsStop(s: string, j: nat, hex: bool, x: int)
    requires j <= |s| && (j < |s| ==> !IsDigit(s[j], hex))
    ensures Digits(s, j, hex, x) == (x, if j < |s| && s[j] == ';' then j + 1 else j)
  {
    if j < |s| {
      DigitIs(s[j], hex);
    }
  }

  lemma {:induction false} FirstFigure(digits: string, hex: bool, n: nat)
    requires IsNumber(digits, hex, n) && digits != ""
    ensures digits[0] !in {'x', 'X'}
    decreases |digits|
  {
    var last := |digits| - 1;
    if last > 0 {
      FirstFigure(digits[..last], hex, n / Base(hex));
    }
  }

  /** The digits of `n`, without leading zeros. */
  function Numeral(n: nat, hex: bool): string {
    if n == 0 then ""
    else
      var d := n % Base(hex);
      Numeral(n / Base(hex), hex) + [(if d < 10 then 48 + d else 87 + d) as char]
  }

  lemma {:induction false} NumeralIs(n: nat, hex: bool)
    ensures IsNumber(Numeral(n, hex), hex, n)
    ensures n > 0 ==> Numeral(n, hex) != ""
  {
    if n > 0 {
      NumeralIs(n / Base(hex), hex);
      var digits := Numeral(n, hex);
      assert digits[..|digits| - 1] == Numeral(n / Base(hex), hex);
    }
  }

  /** A code point that is written in figures is decoded to itself, but for those from 0x80 to
    * 0x9F. */
  lemma CodePointsDecode(c: Utf8.Rune, hex: bool, rest: string, attribute: bool, t: Tables)
    requires c > 0 && !(0x80 <= c <= 0x9F)
    ensures var s := Reference(if hex then "x" else "", Numeral(c, hex), ";" + rest);
      exists text :: Encodes(text, c) && Unescaped(s, attribute, t) == text + Unescaped(rest, attribute, t)
  {
    hide Unescaped, Next, Numeral, Encodes, IsNumber, Signed;
    var mark, digits, tail := if hex then "x" else "", Numeral(c, hex), ";" + rest;
    var s := Reference(mark, digits, tail);
    NumeralIs(c, hex);
    DigitIs(';', hex);
    NumbersDecode(mark, digits, c, tail, attribute, t);
    SmallIs(c);
    var end := 2 + |mark| + |digits| + 1;
    var text :| Next(s, attribute, t) == (text, end) && Encodes(text, Character(Signed(c)));
    assert s[end..] == rest;
    Stepped("", s, attribute, t);
    assert "" + Unescaped(s, attribute, t) == Unescaped(s, attribute, t) && "" + text == text;
  }

  lemma SmallIs(c: Utf8.Rune)
    requires c > 0 && !(0x80 <= c <= 0x9F)
    ensures Character(Signed(c)) == c
  {
  }

  // ----- Named references -----------------------------------------------------------------

  predicate Alphanumeric(c: char) {
    48 <= c as int <= 57 || 65 <= c as int <= 90 || 97 <= c as int <= 122
  }

  /** Is `text` the character of an entity? */
  ghost predicate Writes(text: string, x: int) {
    Encodes(text, if 0 <= x < 0x11_0000 && !(0xD800 <= x < 0xE000) then x else 0xFFFD)
  }

  /** Is there an entity in the first `k` bytes of `name`, which has more, at most six? */
  predicate Begins(t: Tables, name: string, k: nat) {
    2 <= k <= 6 && k < |name| && name[..k] in t.entity && t.entity[name[..k]] != 0
  }

  /** What "&" and a name stand for, and how many bytes of it are consumed. */
  ghost predicate LookedUp(t: Tables, name: string, attribute: bool, text: string, end: nat) {
    if name in t.entity && t.entity[name] != 0 then Writes(text, t.entity[name]) && end == 1 + |name|
    else if name in t.entity2 && t.entity2[name].0 != 0 then
      exists k: nat ::
        && k <= |text| && Writes(text[..k], t.entity2[name].0) && Writes(text[k..], t.entity2[name].1)
        && end == 1 + |name|
    else if attribute then text == "&" + name && end == 1 + |name|
    else
      || (text == "&" + name && end == 1 + |name| && forall j: nat :: !Begins(t, name, j))
      || exists k: nat ::
           && Begins(t, name, k) && (forall j: nat :: j > k ==> !Begins(t, name, j))
           && Writes(text, t.entity[name[..k]]) && end == 1 + k
  }

  /** The same for `word` and what follows it; a semicolon belongs to the name. */
  ghost predicate Decoded(t: Tables, word: string, tail: string, attribute: bool, text: string, end: nat) {
    var name := if tail != "" && tail[0] == ';' then word + ";" else word;
    if name == "" || (attribute && name == word && tail != "" && tail[0] == '=') then
      text == "&" + name && end == 1 + |name|
    else LookedUp(t, name, attribute, text, end)
  }

  lemma {:induction false} LongestPrefix(t: Tables, name: string, j: int)
    requires j <= |name|
    ensures var r := Prefix(t, name, j);
      && r <= (if j < 0 then 0 else j) && r != 1
      && (r > 0 ==> name[..r] in t.entity && t.entity[name[..r]] != 0)
      && forall k: nat :: r < k <= j && 2 <= k ==> !(name[..k] in t.entity && t.entity[name[..k]] != 0)
    decreases j
  {
    if j > 1 && One(t, name[..j]) == 0 {
      LongestPrefix(t, name, j - 1);
    }
  }

  lemma {:induction false} WordEnds(s: string, i: nat, j: nat)
    requires i <= j <= |s| && (forall k :: i <= k < j ==> Alphanumeric(s[k])) && (j < |s| ==> !Alphanumeric(s[j]))
    ensures NameEnd(s, i) == if j < |s| && s[j] == ';' then j + 1 else j
    decreases j - i
  {
    if i < j {
      WordEnds(s, i + 1, j);
    }
  }

  /** A named reference is decoded by the tables, the longest name first. */
  lemma NamesDecode(word: string, tail: string, attribute: bool, t: Tables)
    requires forall k :: 0 <= k < |word| ==> Alphanumeric(word[k])
    requires tail != "" ==> !Alphanumeric(tail[0])
    requires word == "" && tail != "" ==> tail[0] != '#'
    ensures var r := Next("&" + word + tail, attribute, t); Decoded(t, word, tail, attribute, r.0, r.1)
  {
    hide EncodeRune, Encodes, NameEnd, Prefix;
    var s := "&" + word + tail;
    assert forall k :: 1 <= k < 1 + |word| ==> s[k] == word[k - 1];
    assert s[1 + |word|..] == tail;
    assert tail != "" ==> s[1 + |word|] == tail[0];
    WordEnds(s, 1, 1 + |word|);
    var name := if tail != "" && tail[0] == ';' then word + ";" else word;
    if 1 < |s| {
      assert s[1..1 + |name|] == name && s[..1 + |name|] == "&" + name;
      Numbered(s, word);
      NameDecodes(s, word, tail, attribute, t);
    }
  }

  lemma Numbered(s: string, word: string)
    requires |s| > 1 && (word != "" ==> s[1] == word[0] && Alphanumeric(word[0])) && (word == "" ==> s[1] != '#')
    ensures s[1] != '#'
  {
  }

  lemma NameDecodes(s: string, word: string, tail: string, attribute: bool, t: Tables)
    requires var name := if tail != "" && tail[0] == ';' then word + ";" else word;
      && 1 < |s| && NameEnd(s, 1) == 1 + |name| && s[1..1 + |name|] == name && s[..1 + |name|] == "&" + name
      && s[1 + |word|..] == tail
      && (tail == "" || tail[0] != ';' ==> name != "" ==> name[|name| - 1] != ';')
    ensures var r := Named(s, attribute, t); Decoded(t, word, tail, attribute, r.0, r.1)
  {
    hide EncodeRune, Writes, NameEnd, Prefix, LookedUp, One, Two;
    var i := NameEnd(s, 1);
    var name := s[1..i];
    assert tail != "" ==> s[1 + |word|] == tail[0];
    if !(name == "" || (attribute && name[|name| - 1] != ';' && i < |s| && s[i] == '=')) {
      LooksUp(s, attribute, t);
    }
  }

  lemma LooksUp(s: string, attribute: bool, t: Tables)
    requires 1 < |s| && NameEnd(s, 1) > 1
    requires var i := NameEnd(s, 1);
      s[..i] == "&" + s[1..i] && !(attribute && s[i - 1] != ';' && i < |s| && s[i] == '=')
    ensures var r := Named(s, attribute, t); LookedUp(t, s[1..NameEnd(s, 1)], attribute, r.0, r.1)
  {
    hide EncodeRune, Writes, NameEnd, Prefix, Begins;
    var i := NameEnd(s, 1);
    var name := s[1..i];
    if One(t, name) != 0 {
      RuneWrites(One(t, name));
    } else if Two(t, name).0 != 0 {
      TwoWritten(Two(t, name).0, Two(t, name).1);
    } else if !attribute {
      var j := Prefix(t, name, PrefixLimit(name));
      Longest(t, name);
      if j > 0 {
        RuneWrites(One(t, name[..j]));
        BeginsIn(t, name, j);
      }
    }
  }

  lemma BeginsIn(t: Tables, name: string, k: nat)
    requires Begins(t, name, k)
    ensures k <= |name| && name[..k] in t.entity
  {
  }

  lemma Longest(t: Tables, name: string)
    requires name != ""
    ensures var k := Prefix(t, name, PrefixLimit(name));
      && (k > 0 ==> Begins(t, name, k))
      && forall j: nat :: j > k || j == 0 ==> !Begins(t, name, j)
  {
    hide Prefix;
    LongestPrefix(t, name, PrefixLimit(name));
  }

  lemma RuneWrites(x: int)
    ensures Writes(EncodeRune(x), x)
  {
    hide Encodes;
    RuneEncodes(x, if 0 <= x < 0x11_0000 && !(0xD800 <= x < 0xE000) then x else 0xFFFD);
  }

  lemma TwoWritten(x: int, y: int)
    ensures var text := EncodeRune(x) + EncodeRune(y);
      exists k: nat :: k <= |text| && Writes(text[..k], x) && Writes(text[k..], y)
  {
    hide Writes;
    var a, b := EncodeRune(x), EncodeRune(y);
    RuneWrites(x);
    RuneWrites(y);
    assert (a + b)[..|a|] == a && (a + b)[|a|..] == b;
  }

  // ----- Escaped text ---------------------------------------------------------------------

  const ESCAPED: set<char> := {'&', '\'', '<', '>', '"', '\r'}

  /** What is written for one character. */
  function Shown(c: char): string {
    match c
    case '&' => "&amp;"
    case '\'' => "&#39;"
    case '<' => "&lt;"
    case '>' => "&gt;"
    case '"' => "&#34;"
    case '\r' => "&#13;"
    case _ => [c]
  }

  /** Escaped text is that of its characters one by one. */
  lemma {:induction false} EscapesEach(s: string, k: nat)
    requires k < |s|
    ensures Escaped(s) == Escaped(s[..k]) + Shown(s[k]) + Escaped(s[k + 1..])
    decreases |s|
  {
    hide EscapeChar, Shown;
    ShownIs(s[0]);
    var rest := s[1..];
    if k > 0 {
      EscapesEach(rest, k - 1);
      assert s[..k][1..] == rest[..k - 1] && s[k + 1..] == rest[k..];
      assert Escaped(s[..k]) == EscapeChar(s[0]) + Escaped(rest[..k - 1]);
    } else {
      assert s[..0] == "";
    }
  }

  /** Nothing that could be taken for markup is left, and a text without it is not changed. */
  lemma {:induction false} EscapedText(s: string)
    ensures forall c :: c in Escaped(s) ==> c !in ESCAPED - {'&'}
    ensures (forall c :: c in s ==> c !in ESCAPED) ==> Escaped(s) == s
    decreases |s|
  {
    hide EscapeChar, Shown, ESCAPED;
    if s != "" {
      ShownIs(s[0]);
      EscapedText(s[1..]);
      assert s == [s[0]] + s[1..];
    }
  }

  lemma ShownIs(c: char)
    ensures EscapeChar(c) == Shown(c)
    ensures forall d :: d in Shown(c) ==> d !in ESCAPED - {'&'}
    ensures c !in ESCAPED ==> Shown(c) == [c]
  {
  }
}
