/** UTF-8 and UTF-16 (RFC 3629 section 4, RFC 2781 section 2): characters and their bytes. */
module Utf8 {
  type Byte = b: nat | b < 256

  /** A Unicode scalar value. */
  type Rune = c: nat | c < 0x11_0000 && !(0xD800 <= c < 0xE000) witness 0

  function Encode(c: Rune): (bs: seq<Byte>)
    ensures 1 <= |bs| <= 4
  {
    if c <= 0x7F then [c]
    else if c <= 0x7FF then [0xC0 + c / 64, 0x80 + c % 64]
    else if c <= 0xFFFF then [0xE0 + c / 4096, 0x80 + c / 64 % 64, 0x80 + c % 64]
    else [0xF0 + c / 262144, 0x80 + c / 4096 % 64, 0x80 + c / 64 % 64, 0x80 + c % 64]
  }

  function EncodeAll(cs: seq<Rune>): seq<Byte> {
    if cs == [] then [] else EncodeAll(cs[..|cs| - 1]) + Encode(cs[|cs| - 1])
  }

  /** The number of bytes of the character that starts with `b`; 0 if none does (`width`). */
  function Width(b: Byte): (w: nat)
    ensures w <= 4
  {
    if b < 0x80 then 1
    else if 0xC0 <= b < 0xE0 then 2
    else if 0xE0 <= b < 0xF0 then 3
    else if 0xF0 <= b < 0xF8 then 4
    else 0
  }

  lemma WidthIsLength(c: Rune)
    ensures Width(Encode(c)[0]) == |Encode(c)|
  {
  }

  lemma {:induction false} EncodeConcat(a: seq<Rune>, b: seq<Rune>)
    ensures EncodeAll(a + b) == EncodeAll(a) + EncodeAll(b)
    decreases |b|
  {
    hide Encode;
    if b == [] {
      assert a + b == a;
    } else {
      var front, last, all := b[..|b| - 1], b[|b| - 1], a + b;
      EncodeConcat(a, front);
      assert all[..|all| - 1] == a + front && all[|all| - 1] == last;
      assert EncodeAll(a) + (EncodeAll(front) + Encode(last)) == (EncodeAll(a) + EncodeAll(front)) + Encode(last);
    }
  }

  lemma {:induction false} EncodeLength(cs: seq<Rune>)
    ensures |cs| <= |EncodeAll(cs)| <= 4 * |cs|
    decreases |cs|
  {
    if cs != [] {
      EncodeLength(cs[..|cs| - 1]);
    }
  }

  // ----- Decoding one character --------------------------------------------------------

  datatype Encoding = Utf8Encoding | Utf16Le | Utf16Be

  datatype Step = Char(value: int, width: nat) | Incomplete(problem: string) | Bad(problem: string, at: nat)

  predicate IsTrailing(b: Byte) {
    0x80 <= b < 0xC0
  }

  /** The bits of a trailing byte. */
  function Low(b: Byte): (d: nat)
    ensures d < 64
  {
    b % 64
  }

  /** The bits of a leading byte. */
  function High(b: Byte): (d: nat) {
    if b < 0x80 then b else if b < 0xE0 then b % 32 else if b < 0xF0 then b % 16 else b % 8
  }

  /** The value of the first `w` bytes, the leading one of which is masked. */
  function Value8(bs: seq<Byte>, w: nat): (v: nat)
    requires 1 <= w <= |bs|
  {
    if w == 1 then High(bs[0]) else 64 * Value8(bs, w - 1) + Low(bs[w - 1])
  }

  /** The position of the first byte from `k` on that does not trail. */
  function FirstBad(bs: seq<Byte>, k: nat, w: nat): (r: nat)
    requires k <= w <= |bs|
    ensures k <= r <= w && (r < w ==> !IsTrailing(bs[r])) && forall i :: k <= i < r ==> IsTrailing(bs[i])
    decreases w - k
  {
    if k == w || !IsTrailing(bs[k]) then k else FirstBad(bs, k + 1, w)
  }

  function Step8(bs: seq<Byte>): (s: Step)
    requires bs != []
  {
    var w := Width(bs[0]);
    if w == 0 then Bad("invalid leading UTF-8 octet", 0)
    else if w > |bs| then Incomplete("incomplete UTF-8 octet sequence")
    else
      var k := FirstBad(bs, 1, w);
      var v := Value8(bs, w);
      if k < w then Bad("invalid trailing UTF-8 octet", k)
      else if (w == 2 && v < 0x80) || (w == 3 && v < 0x800) || (w == 4 && v < 0x10000) then
        Bad("invalid length of a UTF-8 sequence", 0)
      else if 0xD800 <= v <= 0xDFFF || v > 0x10FFFF then Bad("invalid Unicode character", 0)
      else Char(v, w)
  }

  function Unit(bs: seq<Byte>, at: nat, le: bool): (u: nat)
    requires at + 2 <= |bs|
    ensures u < 0x10000
  {
    var first: int, second: int := bs[at], bs[at + 1];
    if le then first + 256 * second else second + 256 * first
  }

  function Step16(bs: seq<Byte>, le: bool): (s: Step) {
    if |bs| < 2 then Incomplete("incomplete UTF-16 character")
    else
      var v := Unit(bs, 0, le);
      if 0xDC00 <= v < 0xE000 then Bad("unexpected low surrogate area", 0)
      else if 0xD800 <= v < 0xDC00 then
        if |bs| < 4 then Incomplete("incomplete UTF-16 surrogate pair")
        else
          var v2 := Unit(bs, 2, le);
          if !(0xDC00 <= v2 < 0xE000) then Bad("expected low surrogate area", 2)
          else Char(0x10000 + v % 1024 * 1024 + v2 % 1024, 4)
      else Char(v, 2)
  }

  /** The characters a YAML stream may hold. */
  predicate IsAllowed(v: int) {
    || v == 0x09 || v == 0x0A || v == 0x0D || 0x20 <= v <= 0x7E || v == 0x85
    || 0xA0 <= v <= 0xD7FF || 0xE000 <= v <= 0xFFFD || 0x10000 <= v <= 0x10FFFF
  }

  function StepOf(bs: seq<Byte>, e: Encoding): (s: Step)
    requires bs != []
    ensures s.Char? ==>
      1 <= s.width <= |bs| && 0 <= s.value < 0x11_0000 && !(0xD800 <= s.value < 0xE000) && IsAllowed(s.value)
  {
    var s := match e case Utf8Encoding => Step8(bs) case Utf16Le => Step16(bs, true) case Utf16Be => Step16(bs, false);
    if s.Char? && !IsAllowed(s.value) then Bad("control characters are not allowed", 0) else s
  }

  // ----- The decoders invert the encoders ----------------------------------------------

  function EncodeUnit(u: nat, le: bool): (bs: seq<Byte>)
    requires u < 0x10000
    ensures |bs| == 2
  {
    if le then [u % 256, u / 256] else [u / 256, u % 256]
  }

  function Encode16(c: Rune, le: bool): (bs: seq<Byte>) {
    if c < 0x10000 then EncodeUnit(c, le)
    else EncodeUnit(0xD800 + (c - 0x10000) / 1024, le) + EncodeUnit(0xDC00 + (c - 0x10000) % 1024, le)
  }

  /** The groups of six bits. */
  lemma Digits(c: nat)
    ensures c == 64 * (c / 64) + c % 64
    ensures c / 64 == 64 * (c / 4096) + c / 64 % 64
    ensures c / 4096 == 64 * (c / 262144) + c / 4096 % 64
  {
  }

  lemma Values(bs: seq<Byte>)
    ensures |bs| >= 1 ==> Value8(bs, 1) == High(bs[0])
    ensures |bs| >= 2 ==> Value8(bs, 2) == 64 * High(bs[0]) + Low(bs[1])
    ensures |bs| >= 3 ==> Value8(bs, 3) == 4096 * High(bs[0]) + 64 * Low(bs[1]) + Low(bs[2])
    ensures |bs| >= 4 ==> Value8(bs, 4) == 262144 * High(bs[0]) + 4096 * Low(bs[1]) + 64 * Low(bs[2]) + Low(bs[3])
  {
  }

  lemma TrailingByte(d: nat)
    requires d < 64
    ensures IsTrailing(0x80 + d) && Low(0x80 + d) == d
  {
  }

  lemma LeadingByte(d: nat)
    ensures d < 32 ==> High(0xC0 + d) == d && Width(0xC0 + d) == 2
    ensures d < 16 ==> High(0xE0 + d) == d && Width(0xE0 + d) == 3
    ensures d < 8 ==> High(0xF0 + d) == d && Width(0xF0 + d) == 4
  {
  }

  lemma BytesBack(b: Byte)
    ensures IsTrailing(b) ==> b == 0x80 + Low(b)
    ensures Width(b) == 1 ==> b < 0x80 && b == High(b)
    ensures Width(b) == 2 ==> b == 0xC0 + High(b) && High(b) < 32
    ensures Width(b) == 3 ==> b == 0xE0 + High(b) && High(b) < 16
    ensures Width(b) == 4 ==> b == 0xF0 + High(b) && High(b) < 8
  {
  }

  lemma ValueOf(c: Rune, bs: seq<Byte>)
    requires Encode(c) <= bs
    ensures Value8(bs, |Encode(c)|) == c
  {
    hide Value8, High, Low;
    Values(bs);
    Digits(c);
    TrailingByte(c % 64);
    TrailingByte(c / 64 % 64);
    TrailingByte(c / 4096 % 64);
    LeadingByte(c / 64);
    LeadingByte(c / 4096);
    LeadingByte(c / 262144);
    assert forall i :: 0 <= i < |Encode(c)| ==> bs[i] == Encode(c)[i];
    if c <= 0x7F {
      LowAscii(bs[0]);
    } else if c <= 0x7FF {
      assert High(bs[0]) == c / 64 && Low(bs[1]) == c % 64;
    } else if c <= 0xFFFF {
      assert High(bs[0]) == c / 4096 && Low(bs[1]) == c / 64 % 64 && Low(bs[2]) == c % 64;
    } else {
      assert High(bs[0]) == c / 262144 && Low(bs[1]) == c / 4096 % 64 && Low(bs[2]) == c / 64 % 64 &&
        Low(bs[3]) == c % 64;
    }
  }

  lemma LowAscii(b: Byte)
    ensures b < 0x80 ==> High(b) == b
  {
  }

  lemma Decodes8(c: Rune, rest: seq<Byte>)
    ensures Step8(Encode(c) + rest) == Char(c, |Encode(c)|)
  {
    hide Value8;
    var bs := Encode(c) + rest;
    ValueOf(c, bs);
    assert forall i :: 1 <= i < |Encode(c)| ==> IsTrailing(bs[i]);
  }

  /** The groups determine the value. */
  lemma Composed(c: nat, d3: nat, d2: nat, d1: nat, d0: nat)
    requires c == 262144 * d3 + 4096 * d2 + 64 * d1 + d0 && d2 < 64 && d1 < 64 && d0 < 64
    ensures c % 64 == d0 && c / 64 % 64 == d1 && c / 4096 % 64 == d2 && c / 262144 == d3
    ensures d3 == 0 ==> c / 4096 == d2 && (d2 == 0 ==> c / 64 == d1)
  {
    assert c / 64 == 4096 * d3 + 64 * d2 + d1;
    assert c / 4096 == 64 * d3 + d2;
  }

  /** Nothing else is decoded: each character has one encoding. */
  lemma Encodes8(bs: seq<Byte>)
    requires bs != [] && Step8(bs).Char?
    ensures var s := Step8(bs); 1 <= s.width <= |bs| && 0 <= s.value < 0x11_0000 && !(0xD800 <= s.value < 0xE000)
    ensures Encode(Step8(bs).value) == bs[..Step8(bs).width]
  {
    hide Value8, Encode;
    var w, v := Width(bs[0]), Step8(bs).value;
    assert forall i :: 1 <= i < w ==> IsTrailing(bs[i]);
    Values(bs);
    Rebuilds(v, bs, w);
  }

  lemma Rebuilds(v: Rune, bs: seq<Byte>, w: nat)
    requires 1 <= w <= |bs| && w == Width(bs[0]) && forall i :: 1 <= i < w ==> IsTrailing(bs[i])
    requires w == 1 ==> v == High(bs[0])
    requires w == 2 ==> v == 64 * High(bs[0]) + Low(bs[1]) && v >= 0x80
    requires w == 3 ==> v == 4096 * High(bs[0]) + 64 * Low(bs[1]) + Low(bs[2]) && v >= 0x800
    requires w == 4 ==> v == 262144 * High(bs[0]) + 4096 * Low(bs[1]) + 64 * Low(bs[2]) + Low(bs[3]) && v >= 0x10000
    ensures Encode(v) == bs[..w]
  {
    hide High, Low, IsTrailing, Width;
    BytesBack(bs[0]);
    forall i | 1 <= i < w ensures bs[i] == 0x80 + Low(bs[i]) {
      BytesBack(bs[i]);
    }
    if w == 2 {
      Composed(v, 0, 0, High(bs[0]), Low(bs[1]));
    } else if w == 3 {
      Composed(v, 0, High(bs[0]), Low(bs[1]), Low(bs[2]));
    } else if w == 4 {
      Composed(v, High(bs[0]), Low(bs[1]), Low(bs[2]), Low(bs[3]));
    }
  }

  lemma UnitAt(u: nat, le: bool, front: seq<Byte>, rest: seq<Byte>)
    requires u < 0x10000
    ensures var bs := front + EncodeUnit(u, le) + rest; |bs| >= |front| + 2 && Unit(bs, |front|, le) == u
  {
    var bs := front + EncodeUnit(u, le) + rest;
    assert bs[|front|] == EncodeUnit(u, le)[0] && bs[|front| + 1] == EncodeUnit(u, le)[1];
  }

  lemma Decodes16(c: Rune, le: bool, rest: seq<Byte>)
    ensures Step16(Encode16(c, le) + rest, le) == Char(c, |Encode16(c, le)|)
  {
    hide Unit, EncodeUnit;
    if c < 0x10000 {
      UnitAt(c, le, [], rest);
      assert [] + EncodeUnit(c, le) + rest == EncodeUnit(c, le) + rest;
    } else {
      var u1, u2 := 0xD800 + (c - 0x10000) / 1024, 0xDC00 + (c - 0x10000) % 1024;
      var e1, e2 := EncodeUnit(u1, le), EncodeUnit(u2, le);
      UnitAt(u1, le, [], e2 + rest);
      UnitAt(u2, le, e1, rest);
      assert [] + e1 + (e2 + rest) == e1 + e2 + rest;
    }
  }

  lemma Encodes16(bs: seq<Byte>, le: bool)
    requires Step16(bs, le).Char?
    ensures var s := Step16(bs, le); s.width <= |bs| && 0 <= s.value < 0x11_0000 && !(0xD800 <= s.value < 0xE000)
    ensures Encode16(Step16(bs, le).value, le) == bs[..Step16(bs, le).width]
  {
    hide Unit, EncodeUnit;
    UnitBytes(bs, 0, le);
    if Step16(bs, le).width == 4 {
      UnitBytes(bs, 2, le);
      var high, low := Unit(bs, 0, le) % 1024, Unit(bs, 2, le) % 1024;
      assert Step16(bs, le).value - 0x10000 == 1024 * high + low;
      assert bs[..4] == bs[0..2] + bs[2..4];
    }
  }

  lemma UnitBytes(bs: seq<Byte>, at: nat, le: bool)
    requires at + 2 <= |bs|
    ensures EncodeUnit(Unit(bs, at, le), le) == bs[at..at + 2]
  {
  }

  /** What is decided on some bytes stays decided when more arrive. */
  lemma Decided(bs: seq<Byte>, more: seq<Byte>, e: Encoding)
    requires bs != [] && !StepOf(bs, e).Incomplete?
    ensures StepOf(bs + more, e) == StepOf(bs, e)
  {
    if e == Utf8Encoding && Width(bs[0]) > 0 {
      var w := Width(bs[0]);
      SameValue(bs, bs + more, w);
      assert FirstBad(bs, 1, w) == FirstBad(bs + more, 1, w) by { SameBad(bs, bs + more, 1, w); }
    }
  }

  lemma {:induction false} SameValue(a: seq<Byte>, b: seq<Byte>, w: nat)
    requires 1 <= w <= |a| <= |b| && a == b[..|a|]
    ensures Value8(a, w) == Value8(b, w)
    decreases w
  {
    if w > 1 {
      SameValue(a, b, w - 1);
    }
  }

  lemma {:induction false} SameBad(a: seq<Byte>, b: seq<Byte>, k: nat, w: nat)
    requires k <= w <= |a| <= |b| && a == b[..|a|]
    ensures FirstBad(a, k, w) == FirstBad(b, k, w)
    decreases w - k
  {
    if k < w && IsTrailing(a[k]) {
      SameBad(a, b, k + 1, w);
    }
  }
}
