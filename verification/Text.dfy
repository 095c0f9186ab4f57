/** Which bytes are a YAML text, and what is wrong with those that are not, by their values. */
module YamlText {
  import opened Options
  import opened Utf8
  import opened YamlReader

  /** The characters that YAML permits. */
  predicate Permitted(c: Rune) {
    || c in {9, 10, 13, 0x85} || 32 <= c <= 126 || 0xA0 <= c < 0xD800 || 0xE000 <= c <= 0xFFFD
    || 0x1_0000 <= c < 0x11_0000
  }

  predicate AllPermitted(cs: seq<Rune>) {
    forall i :: 0 <= i < |cs| ==> Permitted(cs[i])
  }

  /** The bytes of a mark, or none. */
  predicate IsMark(mark: seq<Byte>, e: Encoding) {
    match e
    case Utf8Encoding => mark == [0xEF, 0xBB, 0xBF] || mark == []
    case Utf16Le => mark == [0xFF, 0xFE]
    case Utf16Be => mark == [0xFE, 0xFF]
  }

  /** Do the bytes spell the characters? Without a mark, the first one is not the mark itself. */
  ghost predicate Spelled(input: seq<Byte>, mark: seq<Byte>, e: Encoding, cs: seq<Rune>) {
    && IsMark(mark, e) && input == mark + Flat(cs, e) && AllPermitted(cs)
    && (mark == [] && cs != [] ==> cs[0] != 0xFEFF)
  }

  ghost predicate IsText(input: seq<Byte>, cs: seq<Rune>) {
    exists mark, e :: Spelled(input, mark, e, cs)
  }

  lemma PermittedIs(cs: seq<Rune>)
    ensures AllPermitted(cs) <==> AreAllowed(cs)
  {
  }

  /** Bytes that spell permitted characters mean these characters. */
  lemma TextRead(input: seq<Byte>, cs: seq<Rune>)
    requires IsText(input, cs)
    ensures Expected(input) == Text(cs, None)
  {
    hide Flat, Decode, EncodeIn;
    var mark, e :| Spelled(input, mark, e, cs);
    PermittedIs(cs);
    Decodes(cs, e, |mark|);
    assert input[|mark|..] == Flat(cs, e);
    MarkFound(mark, e, cs);
  }

  lemma MarkFound(mark: seq<Byte>, e: Encoding, cs: seq<Rune>)
    requires Spelled(mark + Flat(cs, e), mark, e, cs)
    ensures EncodingOf(mark + Flat(cs, e)) == (e, |mark|)
  {
    hide Encode;
    if mark == [] && cs != [] {
      FirstBytes(cs[0], Flat(cs[1..], e));
      assert mark + Flat(cs, e) == Encode(cs[0]) + Flat(cs[1..], e);
    }
  }

  /** No character but the byte order mark starts like a mark. */
  lemma FirstBytes(c: Rune, rest: seq<Byte>)
    requires c != 0xFEFF
    ensures var bs := Encode(c) + rest;
      && bs[0] < 0xF8
      && !(|bs| >= 3 && bs[0] == 0xEF && bs[1] == 0xBB && bs[2] == 0xBF)
  {
    var bs := Encode(c) + rest;
    assert forall i :: 0 <= i < |Encode(c)| ==> bs[i] == Encode(c)[i];
  }

  // ----- What is decoded, and what is not --------------------------------------------------

  /** `rest` begins at `at` like no permitted character, for the reason `what`. */
  ghost predicate Wrong(rest: seq<Byte>, e: Encoding, what: string, at: nat) {
    || (what == "control characters are not allowed" && at == 0
        && exists c: Rune :: !Permitted(c) && EncodeIn(c, e) <= rest)
    || if e == Utf8Encoding then Wrong8(rest, what, at) else Wrong16(rest, e == Utf16Le, what, at)
  }

  function Length(b: Byte): nat {
    if b < 0x80 then 1 else if b < 0xC0 then 0 else if b < 0xE0 then 2 else if b < 0xF0 then 3
    else if b < 0xF8 then 4 else 0
  }

  /** The bytes that RFC 3629 does not allow: at the start, missing ones, those that do not trail,
    * and those that spell a character in too many bytes or none. */
  predicate Wrong8(bs: seq<Byte>, what: string, at: nat) {
    && bs != []
    && var n := Length(bs[0]);
       match what
       case "invalid leading UTF-8 octet" => at == 0 && n == 0
       case "incomplete UTF-8 octet sequence" => at == 0 && n > |bs|
       case "invalid trailing UTF-8 octet" =>
         1 <= at < n <= |bs| && !(0x80 <= bs[at] < 0xC0) && forall k :: 1 <= k < at ==> 0x80 <= bs[k] < 0xC0
       case "invalid length of a UTF-8 sequence" =>
         && at == 0 && n <= |bs|
         && (bs[0] in {0xC0, 0xC1} || (bs[0] == 0xE0 && bs[1] < 0xA0) || (bs[0] == 0xF0 && bs[1] < 0x90))
       case "invalid Unicode character" =>
         && at == 0 && n <= |bs|
         && ((bs[0] == 0xED && bs[1] >= 0xA0) || (bs[0] == 0xF4 && bs[1] >= 0x90) || 0xF5 <= bs[0] < 0xF8)
       case _ => false
  }

  /** The same for RFC 2781: units that are missing, and surrogates that are not in pairs. */
  predicate Wrong16(bs: seq<Byte>, le: bool, what: string, at: nat) {
    var high := if le then 1 else 0;
    match what
    case "incomplete UTF-16 character" => at == 0 && |bs| < 2
    case "unexpected low surrogate area" => at == 0 && |bs| >= 2 && 0xDC <= bs[high] < 0xE0
    case "incomplete UTF-16 surrogate pair" => at == 0 && 2 <= |bs| < 4 && 0xD8 <= bs[high] < 0xDC
    case "expected low surrogate area" =>
      at == 2 && |bs| >= 4 && 0xD8 <= bs[high] < 0xDC && !(0xDC <= bs[2 + high] < 0xE0)
    case _ => false
  }

  /** What a step refuses is wrong for the reason it gives. */
  ghost predicate Refused(bs: seq<Byte>, e: Encoding, s: Step) {
    match s
    case Char(_, _) => true
    case Incomplete(what) => Wrong(bs, e, what, 0)
    case Bad(what, at) => Wrong(bs, e, what, at)
  }

  lemma StepRefuses(bs: seq<Byte>, e: Encoding)
    requires bs != []
    ensures Refused(bs, e, StepOf(bs, e))
  {
    hide Encode, Encode16, Step8, Step16, Permitted, Wrong8, Wrong16;
    match e
    case Utf8Encoding =>
      if Step8(bs).Char? {
        Encodes8(bs);
        NotPermitted(bs, e, Step8(bs));
      } else {
        Refuses8(bs);
      }
    case Utf16Le =>
      if Step16(bs, true).Char? {
        Encodes16(bs, true);
        NotPermitted(bs, e, Step16(bs, true));
      } else {
        Refuses16(bs, true);
      }
    case Utf16Be =>
      if Step16(bs, false).Char? {
        Encodes16(bs, false);
        NotPermitted(bs, e, Step16(bs, false));
      } else {
        Refuses16(bs, false);
      }
  }

  lemma NotPermitted(bs: seq<Byte>, e: Encoding, s: Step)
    requires s.Char? && s.width <= |bs| && 0 <= s.value < 0x11_0000 && !(0xD800 <= s.value < 0xE000)
    requires EncodeIn(s.value, e) == bs[..s.width]
    ensures !IsAllowed(s.value) ==> Wrong(bs, e, "control characters are not allowed", 0)
  {
    hide EncodeIn, Wrong8, Wrong16;
    var c: Rune := s.value;
    assert EncodeIn(c, e) <= bs;
    assert !IsAllowed(c) ==> !Permitted(c);
  }

  ghost predicate Refused8(bs: seq<Byte>, s: Step) {
    match s
    case Char(_, _) => true
    case Incomplete(what) => Wrong8(bs, what, 0)
    case Bad(what, at) => Wrong8(bs, what, at)
  }

  /** What the value of bytes that trail says of the first two bytes. */
  lemma ValueTells(bs: seq<Byte>, w: nat)
    requires bs != [] && w == Width(bs[0]) && 2 <= w <= |bs| && forall k :: 1 <= k < w ==> IsTrailing(bs[k])
    ensures w == 2 ==> (Value8(bs, w) < 0x80 <==> bs[0] in {0xC0, 0xC1}) && Value8(bs, w) < 0x800
    ensures w == 3 ==>
      && (Value8(bs, w) < 0x800 <==> bs[0] == 0xE0 && bs[1] < 0xA0) && Value8(bs, w) < 0x1_0000
      && (0xD800 <= Value8(bs, w) < 0xE000 <==> bs[0] == 0xED && bs[1] >= 0xA0)
    ensures w == 4 ==>
      && (Value8(bs, w) < 0x1_0000 <==> bs[0] == 0xF0 && bs[1] < 0x90)
      && (Value8(bs, w) > 0x10_FFFF <==> (bs[0] == 0xF4 && bs[1] >= 0x90) || 0xF5 <= bs[0] < 0xF8)
  {
    hide Value8;
    Values(bs);
  }

  lemma LengthIs(b: Byte)
    ensures Length(b) == Width(b) && (Width(b) == 1 <==> b < 0x80)
  {
  }

  lemma Refuses8(bs: seq<Byte>)
    requires bs != []
    ensures Refused8(bs, Step8(bs))
  {
    hide Value8, FirstBad, Width, Length;
    LengthIs(bs[0]);
    var w := Width(bs[0]);
    if 2 <= w <= |bs| && FirstBad(bs, 1, w) == w {
      ValueTells(bs, w);
    } else if w == 1 {
      Values(bs);
      LowAscii(bs[0]);
    }
  }

  ghost predicate Refused16(bs: seq<Byte>, le: bool, s: Step) {
    match s
    case Char(_, _) => true
    case Incomplete(what) => Wrong16(bs, le, what, 0)
    case Bad(what, at) => Wrong16(bs, le, what, at)
  }

  lemma Refuses16(bs: seq<Byte>, le: bool)
    ensures Refused16(bs, le, Step16(bs, le))
  {
  }

  /** Nothing is wrong where a permitted character begins. */
  lemma NothingWrong(rest: seq<Byte>, e: Encoding, c: Rune, what: string, at: nat)
    requires Permitted(c) && EncodeIn(c, e) <= rest
    ensures !Wrong(rest, e, what, at)
  {
    hide Permitted, Wrong8, Wrong16, Encode, Encode16;
    OneMeaning(rest, e, c);
    match e
    case Utf8Encoding => Right8(rest, c, what, at);
    case Utf16Le => Right16(rest, true, c, what, at);
    case Utf16Be => Right16(rest, false, c, what, at);
  }

  /** Bytes begin with the encoding of one character only. */
  lemma OneMeaning(rest: seq<Byte>, e: Encoding, c: Rune)
    requires EncodeIn(c, e) <= rest
    ensures forall d: Rune :: EncodeIn(d, e) <= rest ==> d == c
  {
    hide Encode, Encode16, Step8, Step16;
    forall d: Rune | EncodeIn(d, e) <= rest ensures d == c {
      MeansOne(rest, e, c);
      MeansOne(rest, e, d);
    }
  }

  lemma MeansOne(rest: seq<Byte>, e: Encoding, c: Rune)
    requires EncodeIn(c, e) <= rest
    ensures rest != []
    ensures match e
            case Utf8Encoding => Step8(rest) == Char(c, |EncodeIn(c, e)|)
            case Utf16Le => Step16(rest, true) == Char(c, |EncodeIn(c, e)|)
            case Utf16Be => Step16(rest, false) == Char(c, |EncodeIn(c, e)|)
  {
    hide Encode, Encode16, Step8, Step16;
    var more := rest[|EncodeIn(c, e)|..];
    assert rest == EncodeIn(c, e) + more;
    Decodes8(c, more);
    Decodes16(c, true, more);
    Decodes16(c, false, more);
  }

  lemma RightBytes(c: Rune)
    ensures var b := Encode(c);
      && Length(b[0]) == |b| && (forall k :: 1 <= k < |b| ==> 0x80 <= b[k] < 0xC0)
      && b[0] !in {0xC0, 0xC1} && b[0] < 0xF5
      && (|b| >= 2 ==>
            && (b[0] == 0xE0 ==> b[1] >= 0xA0) && (b[0] == 0xF0 ==> b[1] >= 0x90)
            && (b[0] == 0xED ==> b[1] < 0xA0) && (b[0] == 0xF4 ==> b[1] < 0x90))
  {
  }

  lemma Right8(bs: seq<Byte>, c: Rune, what: string, at: nat)
    requires Encode(c) <= bs
    ensures !Wrong8(bs, what, at)
  {
    hide Encode, Length;
    RightBytes(c);
    LengthIs(bs[0]);
    var b := Encode(c);
    assert forall i :: 0 <= i < |b| ==> bs[i] == b[i];
    if |b| == 1 {
      OneByte(b[0]);
    }
  }

  lemma OneByte(b: Byte)
    requires Length(b) == 1
    ensures b < 0x80
  {
  }

  lemma Right16(bs: seq<Byte>, le: bool, c: Rune, what: string, at: nat)
    requires Encode16(c, le) <= bs
    ensures !Wrong16(bs, le, what, at)
  {
    assert forall i :: 0 <= i < |Encode16(c, le)| ==> bs[i] == Encode16(c, le)[i];
  }

  // ----- Whole texts ----------------------------------------------------------------------

  lemma StepSpells(bs: seq<Byte>, e: Encoding)
    requires bs != [] && StepOf(bs, e).Char?
    ensures var s := StepOf(bs, e);
      && Permitted(s.value) && bs == EncodeIn(s.value, e) + bs[s.width..] && |EncodeIn(s.value, e)| == s.width
  {
    hide Encode, Encode16, Step8, Step16;
    match e
    case Utf8Encoding => Encodes8(bs);
    case Utf16Le => Encodes16(bs, true);
    case Utf16Be => Encodes16(bs, false);
  }

  /** Do the characters of `t` spell the bytes up to `rest`, which is empty or wrong? */
  ghost predicate UpTo(bs: seq<Byte>, e: Encoding, offset: nat, t: Text, rest: seq<Byte>) {
    && AllPermitted(t.chars) && bs == Flat(t.chars, e) + rest
    && match t.problem
       case None => rest == []
       case Some(p) =>
         var at := p.offset - offset - |Flat(t.chars, e)|;
         at >= 0 && Wrong(rest, e, p.what, at)
  }

  lemma {:induction false} DecodesUpTo(bs: seq<Byte>, e: Encoding, offset: nat) returns (rest: seq<Byte>)
    ensures UpTo(bs, e, offset, Decode(bs, e, offset), rest)
    decreases |bs|
  {
    hide StepOf, EncodeIn, Wrong, Permitted, UpTo, Decode;
    if bs == [] {
      rest := [];
      NothingUpTo(e, offset);
    } else {
      var s := StepOf(bs, e);
      if s.Char? {
        rest := DecodesUpTo(bs[s.width..], e, offset + s.width);
        CharUpTo(bs, e, offset, rest);
      } else {
        rest := bs;
        WrongUpTo(bs, e, offset);
      }
    }
  }

  lemma NothingUpTo(e: Encoding, offset: nat)
    ensures UpTo([], e, offset, Decode([], e, offset), [])
  {
  }

  lemma WrongUpTo(bs: seq<Byte>, e: Encoding, offset: nat)
    requires bs != [] && !StepOf(bs, e).Char?
    ensures UpTo(bs, e, offset, Decode(bs, e, offset), bs)
  {
    hide StepOf, Wrong;
    StepRefuses(bs, e);
    assert [] + bs == bs;
  }

  lemma CharUpTo(bs: seq<Byte>, e: Encoding, offset: nat, rest: seq<Byte>)
    requires bs != [] && StepOf(bs, e).Char?
    requires var s := StepOf(bs, e);
      UpTo(bs[s.width..], e, offset + s.width, Decode(bs[s.width..], e, offset + s.width), rest)
    ensures UpTo(bs, e, offset, Decode(bs, e, offset), rest)
  {
    hide StepOf, EncodeIn, Wrong, Permitted, Flat;
    var s := StepOf(bs, e);
    StepSpells(bs, e);
    var t, more := Decode(bs, e, offset), Decode(bs[s.width..], e, offset + s.width);
    assert t == Text([s.value as Rune] + more.chars, more.problem);
    FlatMore(s.value, more.chars, e);
    var first := EncodeIn(s.value, e);
    assert bs == first + (Flat(more.chars, e) + rest);
    assert first + Flat(more.chars, e) + rest == first + (Flat(more.chars, e) + rest);
  }

  lemma FlatMore(c: Rune, cs: seq<Rune>, e: Encoding)
    ensures Flat([c] + cs, e) == EncodeIn(c, e) + Flat(cs, e)
  {
    hide EncodeIn;
    assert ([c] + cs)[1..] == cs;
  }

  /** Does the input begin with a text of these characters, and go on with what is wrong for the
    * reason and at the place that the problem tells? */
  ghost predicate Broken(input: seq<Byte>, mark: seq<Byte>, e: Encoding, cs: seq<Rune>, rest: seq<Byte>, p: Problem) {
    && Spelled(mark + Flat(cs, e), mark, e, cs) && input == mark + Flat(cs, e) + rest
    && var at := p.offset - |mark + Flat(cs, e)|; at >= 0 && Wrong(rest, e, p.what, at)
  }

  /** The input is a text and means its characters, or begins with the text that is delivered. */
  lemma InputMeans(input: seq<Byte>)
    ensures var t := Expected(input);
      match t.problem
      case None => IsText(input, t.chars)
      case Some(p) => exists mark, e, rest :: Broken(input, mark, e, t.chars, rest, p)
  {
    hide Decode, Wrong, Flat;
    var (e, n) := EncodingOf(input);
    var t, mark := Expected(input), input[..n];
    var rest := DecodesUpTo(input[n..], e, n);
    assert input == mark + (Flat(t.chars, e) + rest) == mark + Flat(t.chars, e) + rest;
    MarkIs(input, t.chars, rest);
    if t.problem.None? {
      assert rest == [] && input == mark + Flat(t.chars, e);
      assert Spelled(input, mark, e, t.chars);
    } else {
      assert Broken(input, mark, e, t.chars, rest, t.problem.value);
    }
  }

  lemma MarkIs(input: seq<Byte>, cs: seq<Rune>, rest: seq<Byte>)
    requires var (e, n) := EncodingOf(input); input[n..] == Flat(cs, e) + rest
    ensures var (e, n) := EncodingOf(input);
      IsMark(input[..n], e) && (n == 0 && cs != [] ==> cs[0] != 0xFEFF)
  {
    hide Encode16, Flat;
    var (e, n) := EncodingOf(input);
    assert n == 0 ==> input[n..] == input;
    Marked(input, cs, rest);
  }

  /** A text that begins with the mark as a character is marked. */
  lemma Marked(input: seq<Byte>, cs: seq<Rune>, rest: seq<Byte>)
    ensures cs != [] && cs[0] == 0xFEFF && input == Flat(cs, Utf8Encoding) + rest ==>
      EncodingOf(input) == (Utf8Encoding, 3)
  {
    hide Encode16, Flat;
    if cs != [] && cs[0] == 0xFEFF && input == Flat(cs, Utf8Encoding) + rest {
      FlatStarts(cs, Utf8Encoding);
      var first := Encode(0xFEFF);
      assert first == [0xEF, 0xBB, 0xBF];
      assert forall k :: 0 <= k < 3 ==> input[k] == first[k];
    }
  }

  lemma FlatStarts(cs: seq<Rune>, e: Encoding)
    requires cs != []
    ensures EncodeIn(cs[0], e) <= Flat(cs, e)
  {
    hide EncodeIn;
  }
}
