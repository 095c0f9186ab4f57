/** Escaping and unescaping HTML text (x/net/html/escape.go) and the conversion of newlines
  * (x/net/html/token.go). A byte is modelled by the character with its code; the tables of
  * named entities are a parameter. */
module HtmlEscape {
  import Utf8

  // ----- Entities ----------------------------------------------------------------------

  /** The named entities of one and of two characters; 0 stands for none. */
  datatype Tables = Tables(entity: map<string, int>, entity2: map<string, (int, int)>)

  function One(t: Tables, name: string): int {
    if name in t.entity then t.entity[name] else 0
  }

  function Two(t: Tables, name: string): (int, int) {
    if name in t.entity2 then t.entity2[name] else (0, 0)
  }

  /** The UTF-8 bytes of `x`; what is not a character becomes U+FFFD. */
  function EncodeRune(x: int): (bs: string)
    ensures 1 <= |bs| <= 4
  {
    var c: Utf8.Rune := if 0 <= x < 0x11_0000 && !(0xD800 <= x < 0xE000) then x else 0xFFFD;
    var bytes := Utf8.Encode(c);
    seq(|bytes|, i requires 0 <= i < |bytes| => bytes[i] as char)
  }

  /** No entity is shorter, with its ampersand, than its characters. */
  ghost predicate Fits(t: Tables) {
    && (forall name :: name in t.entity ==> |EncodeRune(t.entity[name])| <= |name| + 1)
    && (forall name :: name in t.entity2 ==>
          |EncodeRune(t.entity2[name].0)| + |EncodeRune(t.entity2[name].1)| <= |name| + 1)
  }

  const LONGEST_WITHOUT_SEMICOLON := 6

  predicate IsAlnum(c: char) {
    'a' <= c <= 'z' || 'A' <= c <= 'Z' || '0' <= c <= '9'
  }

  /** The value of a digit, or -1. */
  function DigitOf(c: char, hex: bool): int {
    if '0' <= c <= '9' then c as int - '0' as int
    else if hex && 'a' <= c <= 'f' then c as int - 'a' as int + 10
    else if hex && 'A' <= c <= 'F' then c as int - 'A' as int + 10
    else -1
  }

  /** Arithmetic is that of 32 bits with a sign. */
  function Wrap(v: int): int {
    (v + 0x8000_0000) % 0x1_0000_0000 - 0x8000_0000
  }

  /** The number whose digits start at `i`, after `x` before them, and where it ends. */
  function Digits(s: string, i: nat, hex: bool, x: int): (r: (int, nat))
    requires i <= |s|
    ensures i <= r.1 <= |s|
    decreases |s| - i
  {
    if i == |s| then (x, i)
    else
      var d := DigitOf(s[i], hex);
      if d >= 0 then Digits(s, i + 1, hex, Wrap((if hex then 16 else 10) * x + d))
      else (x, if s[i] == ';' then i + 1 else i)
  }

  const WINDOWS_1252: seq<int> := [
    0x20AC, 0x0081, 0x201A, 0x0192, 0x201E, 0x2026, 0x2020, 0x2021,
    0x02C6, 0x2030, 0x0160, 0x2039, 0x0152, 0x008D, 0x017D, 0x008F,
    0x0090, 0x2018, 0x2019, 0x201C, 0x201D, 0x2022, 0x2013, 0x2014,
    0x02DC, 0x2122, 0x0161, 0x203A, 0x0153, 0x009D, 0x017E, 0x0178
  ]

  function Replace(x: int): int {
    if 0x80 <= x <= 0x9F then WINDOWS_1252[x - 0x80]
    else if x == 0 || 0xD800 <= x <= 0xDFFF || x > 0x10FFFF then 0xFFFD
    else x
  }

  predicate IsHex(s: string)
    requires |s| > 2
  {
    s[2] == 'x' || s[2] == 'X'
  }

  /** What "&#..." stands for, and how many bytes of it are consumed. */
  function Numeric(s: string): (r: (string, nat))
    requires |s| > 1
    ensures 1 <= r.1 <= |s| && |r.0| <= r.1
  {
    if |s| <= 3 then ("&", 1)
    else
      var n := Digits(s, if IsHex(s) then 3 else 2, IsHex(s), 0);
      if n.1 <= 3 then ("&", 1) else (EncodeRune(Replace(n.0)), n.1)
  }

  /** Where the name that starts before `i` ends. */
  function NameEnd(s: string, i: nat): (r: nat)
    requires i <= |s|
    ensures i <= r <= |s|
    decreases |s| - i
  {
    if i == |s| then i
    else if IsAlnum(s[i]) then NameEnd(s, i + 1)
    else if s[i] == ';' then i + 1
    else i
  }

  /** The longest prefix of `name` of at most `j` bytes that is an entity; 0 if there is none. */
  function Prefix(t: Tables, name: string, j: int): (r: nat)
    requires j <= |name|
    ensures r <= |name| && (r > 0 ==> One(t, name[..r]) != 0)
    decreases j
  {
    if j <= 1 then 0
    else if One(t, name[..j]) != 0 then j
    else Prefix(t, name, j - 1)
  }

  function PrefixLimit(name: string): int {
    if |name| - 1 > LONGEST_WITHOUT_SEMICOLON then LONGEST_WITHOUT_SEMICOLON else |name| - 1
  }

  /** What the name in "&..." stands for. */
  function Named(s: string, attribute: bool, t: Tables): (r: (string, nat))
    requires |s| > 1
    ensures 1 <= r.1 <= |s|
  {
    var i := NameEnd(s, 1);
    var name := s[1..i];
    if name == "" || (attribute && name[|name| - 1] != ';' && i < |s| && s[i] == '=') then (s[..i], i)
    else if One(t, name) != 0 then (EncodeRune(One(t, name)), i)
    else if Two(t, name).0 != 0 then (EncodeRune(Two(t, name).0) + EncodeRune(Two(t, name).1), i)
    else
      var j := if attribute then 0 else Prefix(t, name, PrefixLimit(name));
      if j > 0 then (EncodeRune(One(t, name[..j])), j + 1) else (s[..i], i)
  }

  /** What the ampersand at the start of `s` stands for, and how many bytes are consumed. */
  function Entity(s: string, attribute: bool, t: Tables): (r: (string, nat))
    requires s != "" && s[0] == '&'
    ensures 1 <= r.1 <= |s|
  {
    if |s| <= 1 then ("&", 1)
    else if s[1] == '#' then Numeric(s)
    else Named(s, attribute, t)
  }

  /** The text with its entities replaced, from left to right. */
  function Unescaped(s: string, attribute: bool, t: Tables): string {
    if s == "" then ""
    else if s[0] != '&' then s[..1] + Unescaped(s[1..], attribute, t)
    else
      var r := Entity(s, attribute, t);
      r.0 + Unescaped(s[r.1..], attribute, t)
  }

  /** An entity is never shorter than what it stands for. */
  lemma EntityFits(s: string, attribute: bool, t: Tables)
    requires s != "" && s[0] == '&' && Fits(t)
    ensures var r := Entity(s, attribute, t); |r.0| <= r.1
  {
    if |s| > 1 && s[1] != '#' {
      var i := NameEnd(s, 1);
      var name := s[1..i];
      if name != "" {
        var j := Prefix(t, name, PrefixLimit(name));
      }
    }
  }

  lemma {:induction false} NeverLonger(s: string, attribute: bool, t: Tables)
    requires Fits(t)
    ensures |Unescaped(s, attribute, t)| <= |s|
    decreases |s|
  {
    if s != "" {
      if s[0] != '&' {
        NeverLonger(s[1..], attribute, t);
      } else {
        EntityFits(s, attribute, t);
        NeverLonger(s[Entity(s, attribute, t).1..], attribute, t);
      }
    }
  }

  // ----- In place ----------------------------------------------------------------------

  /** The state of the cursors: what is written, what was read and what is left. */
  ghost predicate At(b: seq<char>, dst: nat, src: nat, written: string, left: string) {
    dst <= src <= |b| && b[..dst] == written && b[src..] == left
  }

  /** Writes `out` at `dst`; it does not reach what is still to be read. */
  method Put(b: array<char>, dst: nat, src: nat, out: string) returns (dst1: nat)
    requires dst + |out| <= src <= b.Length
    modifies b
    ensures dst1 == dst + |out|
    ensures At(b[..], dst1, src, old(b[..dst]) + out, old(b[src..]))
  {
    forall i | 0 <= i < |out| {
      b[dst + i] := out[i];
    }
    dst1 := dst + |out|;
    assert b[..dst1] == old(b[..dst]) + out;
  }

  /** Moves the bytes from `src` to `src1` down to `dst`. */
  method Move(b: array<char>, dst: nat, src: nat, src1: nat) returns (dst1: nat)
    requires dst <= src <= src1 <= b.Length
    modifies b
    ensures dst1 == dst + (src1 - src)
    ensures At(b[..], dst1, src1, old(b[..dst]) + old(b[src..src1]), old(b[src1..]))
  {
    ghost var moved := b[src..src1];
    forall i | 0 <= i < src1 - src {
      b[dst + i] := b[src + i];
    }
    dst1 := dst + (src1 - src);
    assert forall i :: 0 <= i < |moved| ==> b[dst + i] == moved[i];
    assert b[..dst1] == old(b[..dst]) + moved;
  }

  /** Reads "&#...": the value and where it ends, relative to `src`. */
  method ReadNumber(b: array<char>, src: nat, hex: bool) returns (x: int, i: nat)
    requires src + 3 < b.Length
    ensures (x, i) == Digits(b[src..], if hex then 3 else 2, hex, 0)
  {
    ghost var s := b[src..];
    i := if hex then 3 else 2;
    x := 0;
    ghost var target := Digits(s, i, hex, 0);
    while src + i < b.Length
      invariant 2 <= i <= |s| && target == Digits(s, i, hex, x)
      decreases b.Length - i
    {
      var c := b[src + i];
      assert c == s[i];
      var d := DigitOf(c, hex);
      if d < 0 {
        if c == ';' {
          i := i + 1;
        }
        return;
      }
      x := Wrap((if hex then 16 else 10) * x + d);
      i := i + 1;
    }
  }

  method ReadName(b: array<char>, src: nat) returns (i: nat)
    requires src + 1 < b.Length
    ensures i == NameEnd(b[src..], 1)
  {
    ghost var s := b[src..];
    i := 1;
    while src + i < b.Length
      invariant 1 <= i <= |s| && NameEnd(s, 1) == NameEnd(s, i)
      decreases b.Length - i
    {
      var c := b[src + i];
      assert c == s[i];
      if !IsAlnum(c) {
        if c == ';' {
          i := i + 1;
        }
        return;
      }
      i := i + 1;
    }
  }

  /** The longest entity without a semicolon that `name` starts with. */
  method FindPrefix(t: Tables, name: string) returns (j: nat)
    requires name != ""
    ensures j == Prefix(t, name, PrefixLimit(name))
  {
    var k := |name| - 1;
    if k > LONGEST_WITHOUT_SEMICOLON {
      k := LONGEST_WITHOUT_SEMICOLON;
    }
    while k > 1
      invariant k < |name| && Prefix(t, name, PrefixLimit(name)) == Prefix(t, name, k)
    {
      if One(t, name[..k]) != 0 {
        return k;
      }
      k := k - 1;
    }
    j := 0;
  }

  /** Replaces the entity at `src` by what it stands for, written at `dst`. */
  method UnescapeEntity(b: array<char>, dst: nat, src: nat, attribute: bool, t: Tables) returns (dst1: nat, src1: nat)
    requires dst <= src < b.Length && b[src] == '&' && Fits(t)
    modifies b
    ensures var r := Entity(old(b[src..]), attribute, t);
      && src1 == src + r.1 && dst1 == dst + |r.0|
      && At(b[..], dst1, src1, old(b[..dst]) + r.0, old(b[src..])[r.1..])
  {
    hide Digits, NameEnd, Prefix, EncodeRune, Fits, Replace;
    ghost var s := b[src..];
    EntityFits(s, attribute, t);
    if b.Length - src <= 1 {
      dst1 := Put(b, dst, src + 1, "&");
      src1 := src + 1;
    } else if b[src + 1] == '#' {
      dst1, src1 := UnescapeNumber(b, dst, src);
    } else {
      dst1, src1 := UnescapeName(b, dst, src, attribute, t);
    }
  }

  method UnescapeNumber(b: array<char>, dst: nat, src: nat) returns (dst1: nat, src1: nat)
    requires dst <= src && src + 1 < b.Length
    modifies b
    ensures var r := Numeric(old(b[src..]));
      && src1 == src + r.1 && dst1 == dst + |r.0|
      && At(b[..], dst1, src1, old(b[..dst]) + r.0, old(b[src..])[r.1..])
  {
    hide Digits, EncodeRune, Replace;
    ghost var s := b[src..];
    if b.Length - src <= 3 {
      dst1 := Put(b, dst, src + 1, "&");
      src1 := src + 1;
      return;
    }
    assert b[src + 2] == s[2];
    var x, i := ReadNumber(b, src, b[src + 2] == 'x' || b[src + 2] == 'X');
    if i <= 3 {
      dst1 := Put(b, dst, src + 1, "&");
      src1 := src + 1;
      return;
    }
    src1 := src + i;
    dst1 := Put(b, dst, src1, EncodeRune(Replace(x)));
  }

  method UnescapeName(b: array<char>, dst: nat, src: nat, attribute: bool, t: Tables) returns (dst1: nat, src1: nat)
    requires dst <= src && src + 1 < b.Length && b[src] == '&' && b[src + 1] != '#' && Fits(t)
    modifies b
    ensures var r := Named(old(b[src..]), attribute, t);
      && src1 == src + r.1 && dst1 == dst + |r.0|
      && At(b[..], dst1, src1, old(b[..dst]) + r.0, old(b[src..])[r.1..])
  {
    hide NameEnd, Prefix, EncodeRune, Fits;
    ghost var s := b[src..];
    EntityFits(s, attribute, t);
    var i := ReadName(b, src);
    var name := b[src + 1..src + i];
    assert name == s[1..i];
    src1 := src + i;
    if name == "" || (attribute && name[|name| - 1] != ';' && src1 < b.Length && b[src1] == '=') {
    } else if One(t, name) != 0 {
      dst1 := Put(b, dst, src1, EncodeRune(One(t, name)));
      return;
    } else if Two(t, name).0 != 0 {
      dst1 := Put(b, dst, src1, EncodeRune(Two(t, name).0) + EncodeRune(Two(t, name).1));
      return;
    } else if !attribute {
      var j := FindPrefix(t, name);
      if j > 0 {
        src1 := src + j + 1;
        dst1 := Put(b, dst, src1, EncodeRune(One(t, name[..j])));
        return;
      }
    }
    dst1 := Move(b, dst, src, src1);
  }

  /** What one step replaces: an entity, or a byte by itself. */
  function Next(left: string, attribute: bool, t: Tables): (r: (string, nat))
    requires left != ""
    ensures 1 <= r.1 <= |left|
  {
    if left[0] == '&' then Entity(left, attribute, t) else (left[..1], 1)
  }

  method UnescapeStep(b: array<char>, dst: nat, src: nat, attribute: bool, t: Tables, ghost written: string,
      ghost left: string)
    returns (dst1: nat, src1: nat)
    requires At(b[..], dst, src, written, left) && left != "" && Fits(t)
    modifies b
    ensures var r := Next(left, attribute, t); At(b[..], dst1, src1, written + r.0, left[r.1..])
    ensures src < src1
  {
    hide Entity, Fits;
    assert b[src..][0] == b[src];
    if b[src] == '&' {
      dst1, src1 := UnescapeEntity(b, dst, src, attribute, t);
    } else {
      dst1 := Move(b, dst, src, src + 1);
      src1 := src + 1;
    }
  }

  method FirstAmpersand(b: array<char>, attribute: bool, t: Tables) returns (i: nat)
    ensures i <= b.Length && b[..i] + Unescaped(b[i..], attribute, t) == Unescaped(b[..], attribute, t)
  {
    hide Entity;
    ghost var s := b[..];
    i := 0;
    while i < b.Length && b[i] != '&'
      invariant i <= b.Length && s[..i] + Unescaped(s[i..], attribute, t) == Unescaped(s, attribute, t)
    {
      OnePlain(s, i, attribute, t);
      i := i + 1;
    }
  }

  /** Unescapes `b` in place; the result is the first `n` bytes. */
  method Unescape(b: array<char>, attribute: bool, t: Tables) returns (n: nat)
    requires Fits(t)
    modifies b
    ensures n <= b.Length && b[..n] == Unescaped(old(b[..]), attribute, t)
  {
    hide Next, Fits, Unescaped;
    ghost var s := b[..];
    var i := FirstAmpersand(b, attribute, t);
    ghost var written, left := s[..i], s[i..];
    var dst, src := i, i;
    while src < b.Length
      invariant At(b[..], dst, src, written, left)
      invariant written + Unescaped(left, attribute, t) == Unescaped(s, attribute, t)
      decreases b.Length - src
    {
      ghost var r := Next(left, attribute, t);
      Stepped(written, left, attribute, t);
      dst, src := UnescapeStep(b, dst, src, attribute, t, written, left);
      written, left := written + r.0, left[r.1..];
    }
    NothingLeft(attribute, t);
    assert written + "" == written;
    n := dst;
  }

  lemma NothingLeft(attribute: bool, t: Tables)
    ensures Unescaped("", attribute, t) == ""
  {
  }

  lemma OnePlain(s: string, i: nat, attribute: bool, t: Tables)
    requires i < |s| && s[i] != '&'
    ensures s[..i] + Unescaped(s[i..], attribute, t) == s[..i + 1] + Unescaped(s[i + 1..], attribute, t)
  {
    assert s[i..][1..] == s[i + 1..];
  }

  lemma Stepped(written: string, left: string, attribute: bool, t: Tables)
    requires left != ""
    ensures var r := Next(left, attribute, t);
      written + Unescaped(left, attribute, t) == (written + r.0) + Unescaped(left[r.1..], attribute, t)
  {
    hide Entity;
  }

  // ----- Newlines ----------------------------------------------------------------------

  /** Every CR LF and every other CR becomes LF. */
  function Newlines(s: string): string {
    if s == "" then ""
    else if s[0] != '\r' then s[..1] + Newlines(s[1..])
    else "\n" + Newlines(s[if |s| > 1 && s[1] == '\n' then 2 else 1..])
  }

  /** Text without CR is not changed, and only that is not. */
  lemma {:induction false} NewlinesKeep(s: string)
    ensures Newlines(s) == s <==> '\r' !in s
    ensures '\r' !in Newlines(s)
    decreases |s|
  {
    if s != "" {
      if s[0] != '\r' {
        NewlinesKeep(s[1..]);
        assert s == s[..1] + s[1..];
        assert Newlines(s)[1..] == Newlines(s[1..]);
      } else {
        NewlinesKeep(s[if |s| > 1 && s[1] == '\n' then 2 else 1..]);
        assert Newlines(s)[0] == '\n';
      }
    }
  }

  lemma NewlineStep(s: string, written: string, src: nat)
    requires src < |s|
    ensures s[src] != '\r' ==> written + Newlines(s[src..]) == (written + [s[src]]) + Newlines(s[src + 1..])
    ensures s[src] == '\r' && src + 1 < |s| && s[src + 1] == '\n' ==>
      written + Newlines(s[src..]) == (written + "\n") + Newlines(s[src + 2..])
    ensures s[src] == '\r' && !(src + 1 < |s| && s[src + 1] == '\n') ==>
      written + Newlines(s[src..]) == (written + "\n") + Newlines(s[src + 1..])
  {
    var left := s[src..];
    assert left[1..] == s[src + 1..];
    if |left| > 1 {
      assert left[2..] == s[src + 2..];
    }
  }

  /** Converts the newlines of `b` in place; the result is the first `n` bytes. */
  method ConvertNewlines(b: array<char>) returns (n: nat)
    modifies b
    ensures n <= b.Length && b[..n] == Newlines(old(b[..]))
  {
    hide Newlines;
    ghost var s := b[..];
    assert s[0..] == s && [] + Newlines(s) == Newlines(s);
    var i := 0;
    while i < b.Length
      invariant i <= b.Length && b[i..] == s[i..]
      invariant b[..i] + Newlines(s[i..]) == Newlines(s)
    {
      ghost var written := b[..i];
      assert b[i] == b[i..][0] == s[i];
      if b[i] == '\r' && i + 1 < b.Length && b[i + 1] == '\n' {
        n := ConvertRest(b, i, s, written);
        return;
      }
      NewlineStep(s, written, i);
      if b[i] == '\r' {
        assert i + 1 < b.Length ==> b[i + 1] == b[i..][1] == s[i + 1];
        b[i] := '\n';
      }
      assert b[..i + 1] == written + [b[i]];
      i := i + 1;
    }
    NoNewlines();
    assert b[..i] + "" == b[..i];
    n := i;
  }

  lemma NoNewlines()
    ensures Newlines("") == ""
  {
  }

  /** From the first CR LF at `i` on, bytes are moved down. */
  method ConvertRest(b: array<char>, i: nat, ghost s: string, ghost first: string) returns (dst: nat)
    requires i + 1 < b.Length == |s| && b[i] == '\r' && b[i + 1] == '\n'
    requires At(b[..], i, i, first, s[i..])
    modifies b
    ensures dst <= b.Length && b[..dst] == first + Newlines(s[i..])
  {
    hide Newlines;
    dst := i;
    var src := i + 1;
    assert b[i] == b[..][i..][0] == s[i] && b[i + 1] == b[..][i..][1] == s[i + 1];
    assert b[..][src..] == b[..][i..][1..] == s[src..];
    CrIsNothing(s, i);
    ghost var written := first;
    while src < b.Length
      invariant dst < src <= b.Length && At(b[..], dst, src, written, s[src..])
      invariant written + Newlines(s[src..]) == first + Newlines(s[i..])
    {
      NewlineStep(s, written, src);
      assert b[src] == b[..][src..][0] == s[src];
      ghost var from := src;
      var c := b[src];
      if c == '\r' {
        if src + 1 < b.Length && b[src + 1] == '\n' {
          assert b[src + 1] == b[..][src..][1] == s[src + 1];
          src := src + 1;
        } else {
          assert src + 1 < b.Length ==> b[src + 1] == b[..][src..][1] == s[src + 1];
        }
        c := '\n';
      }
      src := src + 1;
      assert b[..][src..] == b[..][from..][src - from..] == s[src..];
      dst := Put(b, dst, src, [c]);
      written := written + [c];
    }
    NoNewlines();
    assert written + "" == written;
  }

  lemma CrIsNothing(s: string, i: nat)
    requires i + 1 < |s| && s[i] == '\r' && s[i + 1] == '\n'
    ensures Newlines(s[i..]) == Newlines(s[i + 1..])
  {
    assert s[i..][2..] == s[i + 1..][1..];
  }

  // ----- Escaping ----------------------------------------------------------------------

  predicate NeedsEscape(c: char) {
    c == '&' || c == '\'' || c == '<' || c == '>' || c == '"' || c == '\r'
  }

  function EscapeChar(c: char): string {
    if c == '&' then "&amp;"
    else if c == '\'' then "&#39;"
    else if c == '<' then "&lt;"
    else if c == '>' then "&gt;"
    else if c == '"' then "&#34;"
    else if c == '\r' then "&#13;"
    else [c]
  }

  function Escaped(s: string): string {
    if s == "" then "" else EscapeChar(s[0]) + Escaped(s[1..])
  }

  /** A writer that fails after some number of writes. */
  class Writer {
    var text: string
    var room: nat

    constructor (room: nat)
      ensures text == "" && this.room == room
    {
      this.text, this.room := "", room;
    }

    method WriteString(s: string) returns (ok: bool)
      modifies this
      ensures ok == (old(room) > 0)
      ensures if ok then text == old(text) + s && room == old(room) - 1 else text == old(text)
    {
      ok := room > 0;
      if ok {
        text, room := text + s, room - 1;
      }
    }
  }

  /** The first position of a byte to escape, or |s|. */
  function IndexAny(s: string): (i: nat)
    ensures i <= |s| && (i < |s| ==> NeedsEscape(s[i]))
  {
    if s == "" || NeedsEscape(s[0]) then 0 else IndexAny(s[1..]) + 1
  }

  lemma {:induction false} PlainPart(s: string)
    ensures Escaped(s) == s[..IndexAny(s)] + Escaped(s[IndexAny(s)..])
    decreases |s|
  {
    if s != "" && !NeedsEscape(s[0]) {
      var rest := s[1..];
      var i := IndexAny(rest);
      PlainPart(rest);
      assert rest[i..] == s[i + 1..] && [s[0]] + rest[..i] == s[..i + 1];
      assert Escaped(s) == [s[0]] + Escaped(rest);
    } else {
      assert s[0..] == s && s[..0] == "";
    }
  }

  /** Writes `s` escaped; if the writer fails, what was written is a prefix of that. */
  method Escape(w: Writer, s: string) returns (ok: bool)
    modifies w
    ensures ok ==> w.text == old(w.text) + Escaped(s)
    ensures !ok ==> old(w.text) <= w.text <= old(w.text) + Escaped(s)
  {
    hide Escaped, EscapeChar;
    var rest := s;
    ghost var before, all := w.text, w.text + Escaped(s);
    var i := IndexAny(rest);
    while i < |rest|
      invariant i == IndexAny(rest)
      invariant before <= w.text && w.text + Escaped(rest) == all
      decreases |rest|
    {
      var plain, esc := rest[..i], EscapeChar(rest[i]);
      EscapeOne(rest, i);
      Pieces(w.text, plain, esc, Escaped(rest[i + 1..]));
      ok := w.WriteString(plain);
      if !ok {
        return;
      }
      rest := rest[i + 1..];
      ok := w.WriteString(esc);
      if !ok {
        return;
      }
      i := IndexAny(rest);
    }
    EscapeNone();
    PlainPart(rest);
    assert rest[|rest|..] == "" && rest[..|rest|] + "" == rest;
    ok := w.WriteString(rest);
  }

  lemma Pieces(a: string, b: string, c: string, d: string)
    ensures a + (b + (c + d)) == a + b + c + d
    ensures a <= a + b <= a + b + c <= a + b + c + d
  {
  }

  lemma EscapeNone()
    ensures Escaped("") == ""
  {
  }

  lemma EscapeOne(s: string, i: nat)
    requires i == IndexAny(s) && i < |s|
    ensures Escaped(s) == s[..i] + (EscapeChar(s[i]) + Escaped(s[i + 1..]))
  {
    hide EscapeChar, NeedsEscape, IndexAny;
    PlainPart(s);
    var rest := s[i..];
    assert rest[1..] == s[i + 1..] && rest[0] == s[i];
    assert Escaped(rest) == EscapeChar(rest[0]) + Escaped(rest[1..]);
  }

  // ----- The round trip ----------------------------------------------------------------

  /** The entities that escaping uses mean what they should. */
  predicate Markup(t: Tables) {
    One(t, "amp;") == '&' as int && One(t, "lt;") == '<' as int && One(t, "gt;") == '>' as int
  }

  lemma {:induction false} EscapedHasNoCr(s: string)
    ensures '\r' !in Escaped(s)
    decreases |s|
  {
    if s != "" {
      EscapedHasNoCr(s[1..]);
    }
  }

  lemma {:induction false} NameEnds(s: string, i: nat, n: nat)
    requires i < n <= |s| && s[n - 1] == ';' && forall k :: i <= k < n - 1 ==> IsAlnum(s[k])
    ensures NameEnd(s, i) == n
    decreases n - i
  {
    if i < n - 1 {
      NameEnds(s, i + 1, n);
    }
  }

  lemma NamedEntity(name: string, rest: string, attribute: bool, t: Tables)
    requires |name| > 1 && name[|name| - 1] == ';' && forall k :: 0 <= k < |name| - 1 ==> IsAlnum(name[k])
    requires One(t, name) != 0
    ensures Next("&" + name + rest, attribute, t) == (EncodeRune(One(t, name)), |name| + 1)
  {
    hide EncodeRune, Prefix;
    var s := "&" + name + rest;
    assert forall k :: 0 <= k < |name| ==> s[k + 1] == name[k];
    NameEnds(s, 1, |name| + 1);
    assert s[1..|name| + 1] == name;
    assert s[1] == name[0] && s[1] != '#';
  }

  lemma NumericEntity(a: char, b: char, rest: string, attribute: bool, t: Tables)
    requires '0' <= a <= '9' && '0' <= b <= '9'
    ensures var x := 10 * (a as int - '0' as int) + (b as int - '0' as int);
      Next("&#" + [a, b, ';'] + rest, attribute, t) == (EncodeRune(Replace(x)), 5)
  {
    hide EncodeRune, Replace;
    var s := "&#" + [a, b, ';'] + rest;
    assert s[1] == '#' && s[2] == a && s[3] == b && s[4] == ';';
    var d1, d0 := a as int - '0' as int, b as int - '0' as int;
    assert Digits(s, 4, false, 10 * d1 + d0) == (10 * d1 + d0, 5);
    assert Digits(s, 3, false, d1) == Digits(s, 4, false, 10 * d1 + d0);
    assert Digits(s, 2, false, 0) == Digits(s, 3, false, d1);
  }

  lemma AsciiRune(c: char)
    requires c as int < 0x80
    ensures EncodeRune(c as int) == [c]
    ensures c != '\0' ==> EncodeRune(Replace(c as int)) == [c]
  {
  }

  /** One escaped byte is read back, whatever follows it. */
  lemma EscapedChar(c: char, rest: string, attribute: bool, t: Tables)
    requires Markup(t)
    ensures Next(EscapeChar(c) + rest, attribute, t) == ([c], |EscapeChar(c)|)
  {
    hide Next, EncodeRune, One, Replace;
    if c == '&' {
      NamedChar(c, "amp;", rest, attribute, t);
    } else if c == '<' {
      NamedChar(c, "lt;", rest, attribute, t);
    } else if c == '>' {
      NamedChar(c, "gt;", rest, attribute, t);
    } else if c == '\'' {
      NumericChar(c, '3', '9', rest, attribute, t);
    } else if c == '"' {
      NumericChar(c, '3', '4', rest, attribute, t);
    } else if c == '\r' {
      NumericChar(c, '1', '3', rest, attribute, t);
    } else {
      PlainChar(c, rest, attribute, t);
    }
  }

  lemma NamedChar(c: char, name: string, rest: string, attribute: bool, t: Tables)
    requires |name| > 1 && name[|name| - 1] == ';' && forall k :: 0 <= k < |name| - 1 ==> IsAlnum(name[k])
    requires EscapeChar(c) == "&" + name && One(t, name) == c as int && 0 < c as int < 0x80
    ensures Next(EscapeChar(c) + rest, attribute, t) == ([c], |EscapeChar(c)|)
  {
    hide Next, EncodeRune, One, Replace, EscapeChar;
    NamedEntity(name, rest, attribute, t);
    AsciiRune(c);
  }

  lemma NumericChar(c: char, a: char, b: char, rest: string, attribute: bool, t: Tables)
    requires '0' <= a <= '9' && '0' <= b <= '9' &&
      c as int == 10 * (a as int - '0' as int) + (b as int - '0' as int) != 0
    requires EscapeChar(c) == "&#" + [a, b, ';']
    ensures Next(EscapeChar(c) + rest, attribute, t) == ([c], |EscapeChar(c)|)
  {
    hide Next, EncodeRune, Replace, EscapeChar;
    NumericEntity(a, b, rest, attribute, t);
    AsciiRune(c);
  }

  lemma PlainChar(c: char, rest: string, attribute: bool, t: Tables)
    requires EscapeChar(c) == [c] && c != '&'
    ensures Next(EscapeChar(c) + rest, attribute, t) == ([c], |EscapeChar(c)|)
  {
    assert ([c] + rest)[..1] == [c];
  }

  /** Unescaping escaped text, as the tokenizer does after converting newlines, gives it back;
    * that CR is escaped is what keeps it. */
  lemma {:induction false} RoundTrip(s: string, attribute: bool, t: Tables)
    requires Markup(t)
    ensures Unescaped(Escaped(s), attribute, t) == s
    ensures Unescaped(Newlines(Escaped(s)), attribute, t) == s
    decreases |s|
  {
    hide Next, EscapeChar, Newlines, Unescaped;
    EscapedHasNoCr(s);
    NewlinesKeep(Escaped(s));
    if s != "" {
      var first, rest := EscapeChar(s[0]), Escaped(s[1..]);
      RoundTrip(s[1..], attribute, t);
      EscapedChar(s[0], rest, attribute, t);
      SomeBytes(s[0]);
      Stepped("", first + rest, attribute, t);
      assert (first + rest)[|first|..] == rest;
      assert "" + [s[0]] + s[1..] == s &&
        "" + Unescaped(first + rest, attribute, t) == Unescaped(first + rest, attribute, t);
    } else {
      NothingLeft(attribute, t);
    }
  }

  lemma SomeBytes(c: char)
    ensures EscapeChar(c) != ""
  {
  }
}
