/** The HTML tokenizer (x/net/html/token.go): a buffer that is compacted while spans into it are
  * kept, filled by a reader that delivers the text in any pieces.
  *
  * HtmlLex says what there is to find in the whole text; the methods here find it. Their
  * contracts speak of absolute positions, which compaction does not change. The limit on the
  * buffer (`maxBuf`) is 0, that is, there is none. */
module HtmlTokenizer {
  import opened Options
  import opened HtmlLex
  import HtmlMarkup

  datatype Error = Eof | NoProgress | Failure

  /** What one call of the reader offers; an error comes with the last bytes of a reply. */
  datatype Reply = Reply(bytes: string, error: Option<Error>)

  const MAX_EMPTY := 100

  /** All bytes that a reader delivers before its first error, or before `MAX_EMPTY` replies in
    * a row, `idle` of which have been seen, are empty. */
  function Delivered(script: seq<Reply>, idle: nat): string {
    if script == [] || idle >= MAX_EMPTY then ""
    else if script[0].error.Some? then script[0].bytes
    else if script[0].bytes == "" then Delivered(script[1..], idle + 1)
    else script[0].bytes + Delivered(script[1..], 0)
  }

  class Reader {
    var script: seq<Reply>

    constructor (script: seq<Reply>)
      ensures this.script == script
    {
      this.script := script;
    }

    /** At most `room` bytes; what does not fit is kept for the next call. */
    method Read(room: nat) returns (bytes: string, error: Option<Error>)
      requires room > 0
      modifies this
      ensures |bytes| <= room
      ensures bytes == "" && error.None? ==>
        forall idle: nat :: idle < MAX_EMPTY ==> Delivered(old(script), idle) == Delivered(script, idle + 1)
      ensures bytes != "" || error.Some? ==>
        forall idle: nat :: idle < MAX_EMPTY ==>
          Delivered(old(script), idle) == bytes + if error.Some? then "" else Delivered(script, 0)
    {
      if script == [] {
        return "", Some(Eof);
      }
      var r := script[0];
      if |r.bytes| > room {
        bytes, error := r.bytes[..room], None;
        var rest := script[1..];
        script := [Reply(r.bytes[room..], r.error)] + rest;
        assert script[1..] == rest;
        assert r.bytes == bytes + r.bytes[room..];
      } else {
        bytes, error := r.bytes, r.error;
        script := script[1..];
      }
    }
  }

  /** Absolute positions: the current token, its data and its attributes. */
  datatype View = View(start: int, pos: int, data: Span, key: Span, val: Span, attrs: seq<(Span, Span)>)

  function Shift(x: Span, n: int): Span {
    Span(x.start + n, x.end + n)
  }

  function ShiftAll(xs: seq<(Span, Span)>, n: int): (r: seq<(Span, Span)>)
    ensures |r| == |xs|
  {
    seq(|xs|, i requires 0 <= i < |xs| => (Shift(xs[i].0, n), Shift(xs[i].1, n)))
  }

  // ----- What each step of reading does to the view; `eof`: the end of the text was hit -------

  ghost predicate Passed(s: string, e: Ender, was: View, now: View, eof: bool) {
    && 0 <= was.pos <= |s|
    && var i := Find(s, was.pos, e);
    eof == (i == |s|) && now == was.(pos := if eof then i else i + 1)
  }

  ghost predicate SpaceSkipped(s: string, was: View, now: View, eof: bool) {
    && 0 <= was.pos <= |s|
    && var i := Find(s, was.pos, NotSpace);
    eof == (i == |s|) && now == was.(pos := i)
  }

  ghost predicate NameRead(s: string, was: View, now: View, eof: bool) {
    && 0 < was.pos <= |s|
    && var name := TagName(s, was.pos);
    eof == (name.0 == |s|) && now == was.(data := Span(was.pos - 1, name.0), pos := name.1)
  }

  ghost predicate KeyRead(s: string, was: View, now: View, eof: bool) {
    && 0 <= was.pos <= |s|
    && var key := AttrKey(s, was.pos);
    eof == (key.0 == |s|) && now == was.(key := Span(was.pos, key.0), pos := key.1)
  }

  /** Where a key ends, by the byte that ended it. */
  lemma KeyPassed(s: string, was: View, now: View, eof: bool)
    requires Passed(s, EndsKey, was.(key := Span(was.pos, was.key.end)), now, eof)
    ensures was.start == now.start && now.key.start == was.pos &&
      (if eof then was.pos <= now.pos else was.pos < now.pos <= |s|)
    ensures eof ==> KeyRead(s, was, now.(key := Span(was.pos, now.pos)), true)
    ensures !eof && (s[now.pos - 1] == '=' || s[now.pos - 1] == '>') ==>
      KeyRead(s, was, now.(pos := now.pos - 1, key := Span(was.pos, now.pos - 1)), false)
    ensures !eof && s[now.pos - 1] != '=' && s[now.pos - 1] != '>' ==>
      KeyRead(s, was, now.(key := Span(was.pos, now.pos - 1)), false)
  {
    hide Ends;
  }

  ghost predicate ValRead(s: string, was: View, now: View, eof: bool) {
    && 0 <= was.pos <= |s|
    && var val := AttrVal(s, was.pos);
    now == was.(val := val.0, pos := val.1) && (eof ==> val.1 == |s|)
  }

  ghost predicate ValueRead(s: string, p: int, was: View, now: View, eof: bool) {
    && 0 <= p < was.pos <= |s|
    && var val := Value(s, was.pos, p);
    now == was.(val := val.0, pos := val.1) && (eof ==> val.1 == |s|)
  }

  ghost predicate ValueAtRead(s: string, p: int, was: View, now: View, eof: bool) {
    && 0 <= p < was.pos < |s|
    && var val := ValueAt(s, was.pos, p);
    now == was.(val := val.0, pos := val.1) && (eof ==> val.1 == |s|)
  }

  /** The first byte of an unquoted value has been read. */
  ghost predicate UnquotedRead(s: string, was: View, now: View, eof: bool) {
    && 0 < was.pos <= |s|
    && var i := Find(s, was.pos, EndsValue);
    now == was.(val := Span(was.pos - 1, i), pos := if i < |s| && s[i] != '>' then i + 1 else i) && eof == (i == |s|)
  }

  ghost predicate AttrRead(s: string, save: bool, was: View, now: View, eof: bool) {
    && 0 <= was.pos < |s|
    && var key := AttrKey(s, was.pos);
    var val := AttrVal(s, key.1);
    var here := if save && key.0 != was.pos then [(Span(was.pos, key.0), val.0)] else [];
    && now.pos == Find(s, val.1, NotSpace) && eof == (now.pos == |s|)
    && now.start == was.start && now.data == was.data && now.attrs == was.attrs + here
  }

  ghost predicate AttrsRead(s: string, save: bool, was: View, now: View, eof: bool) {
    && 0 <= was.pos < |s| && !IsSpace(s[was.pos])
    && var rest := Attrs(s, was.pos);
    && now.start == was.start && now.data == was.data && now.attrs == (if save then rest.0 else [])
    && now.pos == rest.1.pos && eof == rest.1.eof
  }

  ghost predicate TagRead(s: string, save: bool, was: View, now: View, eof: bool) {
    && 0 < was.pos <= |s|
    && var tag := TagAt(s, was.pos);
    && now.start == was.start && now.data == tag.name && now.attrs == (if save then tag.attrs else [])
    && now.pos == tag.stop.pos && eof == tag.stop.eof
  }

  ghost predicate TagWordRead(s: string, tag: string, was: View, now: View, eof: bool, whole: bool) {
    && 0 <= was.pos <= |s|
    && var n := MatchTag(s, was.pos, tag, 0);
    && whole == (n == |tag|) && eof == (n < |tag| && was.pos + n == |s|)
    && now == was.(pos := was.pos + n)
  }

  ghost predicate RawEndTagRead(s: string, tag: string, was: View, now: View, eof: bool, found: bool) {
    && 2 <= was.pos <= |s|
    && var r := RawEndTag(s, was.pos, tag);
    found == r.0 && eof == r.1.eof && now == was.(pos := r.1.pos)
  }

  ghost predicate RawTextRead(s: string, tag: string, was: View, now: View, eof: bool) {
    && 0 <= was.pos <= |s|
    && var r := RawText(s, was.pos, tag);
    eof == r.eof && now == was.(pos := r.pos)
  }

  ghost predicate ScriptRead(s: string, q: ScriptState, was: View, now: View, eof: bool) {
    && Behind(q) <= was.pos <= |s|
    && var r := Script(s, was.pos, q);
    eof == r.eof && now == was.(pos := r.pos)
  }

  /** One step of a script: it ends, or goes on in state `q'`. */
  ghost predicate ScriptGoesOn(s: string, q: ScriptState, was: View, now: View, eof: bool, q': ScriptState,
      more: bool) {
    && Behind(q) <= was.pos <= |s| && 0 <= now.pos <= |s| && now == was.(pos := now.pos)
    && was.pos - Behind(q) <= now.pos - (if more then Behind(q') else 0)
    && if more then
         && !eof && Script(s, was.pos, q) == Script(s, now.pos, q')
         && (now.pos > was.pos || (now.pos == was.pos && Rank(q') < Rank(q)))
       else Script(s, was.pos, q) == Stop(now.pos, eof)
  }

  ghost predicate CommentEndRead(s: string, was: View, now: View, eof: bool) {
    && 0 <= was.pos <= |s|
    && var r := Comment(s, was.pos, 2);
    eof == r.1.eof && now == was.(pos := r.1.pos, data := Span(was.data.start, r.0))
  }

  ghost predicate CommentRead(s: string, was: View, now: View, eof: bool) {
    && 0 <= was.pos <= |s|
    && var r := Comment(s, was.pos, 2);
    && eof == r.1.eof
    && now == was.(pos := r.1.pos, data := Span(was.pos, if r.0 < was.pos then was.pos else r.0))
  }

  ghost predicate UntilRead(s: string, was: View, now: View, eof: bool) {
    && 0 <= was.pos <= |s|
    && var m := UntilCloseAngle(s, was.pos, CommentToken);
    eof == m.stop.eof && now == was.(pos := m.stop.pos, data := m.data)
  }

  /** Without the word, reading goes on where it started, or is at the end of the text. */
  ghost predicate WordRead(s: string, word: string, fold: bool, was: View, now: View, eof: bool, whole: bool) {
    && 0 <= was.pos <= |s|
    && var n := MatchWord(s, was.pos, word, 0, fold);
    && whole == (n == |word|) && eof == (n < |word| && was.pos + n == |s|)
    && now.pos == (if whole || eof then was.pos + n else was.pos)
    && now == was.(pos := now.pos, data := Span(was.data.start, now.data.end))
  }

  ghost predicate DoctypeRead(s: string, was: View, now: View, eof: bool, found: bool) {
    && 0 <= was.pos <= |s|
    && var n := MatchWord(s, was.pos, DOCTYPE, 0, true);
    && found == (n == |DOCTYPE|)
    && if found then
         var q := Find(s, was.pos + n, NotSpace);
         if q == |s| then eof && now == was.(pos := q, data := Span(q, q)) else UntilRead(s, was.(pos := q), now, eof)
       else WordRead(s, DOCTYPE, true, was, now, eof, false)
  }

  ghost predicate CdataEndRead(s: string, was: View, now: View, eof: bool) {
    && 0 <= was.pos <= |s|
    && var r := CdataEnd(s, was.pos, 0);
    eof == r.1.eof && now == was.(pos := r.1.pos, data := Span(was.data.start, r.0))
  }

  ghost predicate CdataRead(s: string, was: View, now: View, eof: bool, found: bool) {
    && 0 <= was.pos <= |s|
    && var n := MatchWord(s, was.pos, CDATA, 0, false);
    && found == (n == |CDATA|)
    && if found then
         var at := was.pos + n;
         CdataEndRead(s, was.(pos := at, data := Span(at, at)), now, eof)
       else WordRead(s, CDATA, false, was, now, eof, false)
  }

  ghost predicate DeclarationRead(s: string, allowCdata: bool, was: View, now: View, eof: bool, typ: TokenType) {
    && 0 <= was.pos <= |s|
    && var m := Declaration(s, was.pos, allowCdata);
    eof == m.stop.eof && typ == m.typ && now == was.(pos := m.stop.pos, data := m.data)
  }

  lemma DoctypeDeclared(s: string, allowCdata: bool, was: View, now: View, eof: bool)
    requires DoctypeRead(s, was, now, eof, true)
    ensures DeclarationRead(s, allowCdata, was, now, eof, DoctypeToken)
  {
    hide MatchWord, Find;
  }

  /** Without the word, reading goes on where it started. */
  lemma NoDoctype(s: string, was: View, now: View, eof: bool)
    requires DoctypeRead(s, was, now, eof, false)
    ensures !eof ==> now.start == was.start && now.pos == was.pos && now.data.start == was.data.start
  {
    hide MatchWord;
  }

  lemma CdataDeclared(s: string, was: View, mid: View, midEof: bool, now: View, eof: bool)
    requires DoctypeRead(s, was, mid, midEof, false) && CdataRead(s, mid, now, eof, true)
    ensures DeclarationRead(s, true, was, now, eof, TextToken)
  {
    hide Find, CdataEnd;
  }

  lemma CommentDeclared(s: string, allowCdata: bool, was: View, mid: View, midEof: bool, mid': View, midEof': bool,
      now: View, eof: bool)
    requires DoctypeRead(s, was, mid, midEof, false) && UntilRead(s, mid', now, eof)
    requires if allowCdata then CdataRead(s, mid, mid', midEof', false) else mid' == mid
    ensures DeclarationRead(s, allowCdata, was, now, eof, CommentToken)
  {
    hide Find, CdataEnd;
  }

  ghost predicate MarkupRead(s: string, allowCdata: bool, was: View, now: View, eof: bool, typ: TokenType) {
    && 0 <= was.pos <= |s|
    && var m := MarkupDeclaration(s, was.pos, allowCdata);
    eof == m.stop.eof && typ == m.typ && now == was.(pos := m.stop.pos, data := m.data)
  }

  lemma MarkupDeclarationIs(s: string, p: nat, allowCdata: bool)
    requires p <= |s|
    ensures MarkupDeclaration(s, p, allowCdata) ==
      if p + 2 > |s| then Markup(CommentToken, Span(p, |s|), Stop(|s|, true))
      else if s[p] == '-' && s[p + 1] == '-' then
        var r := Comment(s, p + 2, 2);
        Markup(CommentToken, Span(p + 2, if r.0 < p + 2 then p + 2 else r.0), r.1)
      else Declaration(s, p, allowCdata)
  {
    hide Comment, Declaration;
  }

  ghost predicate StartTagRead(s: string, m: Mode, m': Mode, was: View, now: View, typ: TokenType) {
    && 0 < was.pos <= |s| && !m.eof
    && var tag := TagAt(s, was.pos);
    && now.start == was.start && now.pos == tag.stop.pos && now.data == tag.name && now.attrs == tag.attrs
    && if tag.stop.eof then typ == ErrorToken && m' == m.(eof := true)
       else
         var raw := RawTagOf(s[tag.name.start..tag.name.end]);
         && typ == (if s[tag.stop.pos - 2] == '/' then SelfClosingTagToken else StartTagToken)
         && m' == m.(rawTag := if raw != "" then raw else m.rawTag)
  }

  lemma ScriptStops(s: string, q: ScriptState, was: View, now: View)
    requires ReadsByte(q) && Behind(q) <= was.pos == |s| && now == was
    ensures ScriptGoesOn(s, q, was, now, true, q, false)
  {
    ScriptByte(s, was.pos, q);
  }

  lemma ScriptSteps(s: string, q: ScriptState, was: View, now: View)
    requires ReadsByte(q) && Behind(q) <= was.pos < |s|
    requires now == was.(pos := if ScriptStep(q, s[was.pos]).1 then was.pos + 1 else was.pos)
    ensures ScriptGoesOn(s, q, was, now, false, ScriptStep(q, s[was.pos]).0, true)
  {
    hide Script;
    ScriptByte(s, was.pos, q);
  }

  lemma StartTagIs(s: string, m: Mode, m': Mode, was: View, now: View, typ: TokenType, allowCdata: bool)
    requires StartTagRead(s, m, m', was, now, typ) && was.start + 2 == was.pos && 0 <= was.start
    requires s[was.start] == '<' && IsLetter(s[was.start + 1]) && Opens(s[was.start + 1])
    ensures TokenIs(MarkupAt(s, was.start, m, allowCdata), was.start, now, m', typ)
  {
    hide TagAt, IsLetter, Opens, RawTagOf, UntilCloseAngle, MarkupDeclaration, FromMarkup;
  }

  ghost predicate TextRead(s: string, was: View, now: View, eof: bool, c: char) {
    && 0 <= was.pos <= |s|
    && var x := TextEnd(s, was.pos);
    eof == (x == |s|) && now == was.(pos := if eof then x else x + 2) && (!eof ==> c == s[x + 1])
  }

  lemma LexDataIs(s: string, p: nat, m: Mode, allowCdata: bool)
    requires p <= |s| && (m.eof ==> p == |s|)
    ensures var x := TextEnd(s, p);
      LexData(s, p, m, allowCdata) ==
        if x == |s| then Lexed(if p < |s| then TextToken else ErrorToken, Span(p, |s|), [], |s|, m.(eof := true))
        else if p < x then Lexed(TextToken, Span(p, x), [], x, m)
        else MarkupAt(s, p, m, allowCdata)
  {
  }

  /** The token `t`, which starts at `p`, is the current one. */
  ghost predicate TokenIs(t: Lexed, p: int, now: View, mode: Mode, typ: TokenType) {
    && typ == t.typ && mode == t.mode
    && now.start == p && now.pos == t.pos && now.data == t.data
    && (typ == StartTagToken || typ == SelfClosingTagToken ==> now.attrs == t.attrs)
  }

  ghost predicate RawElementRead(s: string, m: Mode, m': Mode, was: View, now: View) {
    && 0 <= was.pos <= |s|
    && var r := RawEnd(s, was.pos, m.rawTag);
    && now == was.(pos := r.pos, data := Span(was.data.start, r.pos))
    && m' == Mode(if m.rawTag == "plaintext" then m.rawTag else "",
                  m.rawTag != "textarea" && m.rawTag != "title", m.convertNul, r.eof)
  }

  class Tokenizer {
    const reader: Reader
    var tt: TokenType
    var err: Option<Error>
    var readErr: Option<Error>
    var raw: Span
    var buf: array<char>
    var len: nat
    var data: Span
    var pendingKey: Span
    var pendingVal: Span
    var attr: seq<(Span, Span)>
    var rawTag: string
    var textIsRaw: bool
    var convertNul: bool
    const allowCdata: bool
    ghost const input: string
    /** How many bytes of the input were dropped from the buffer. */
    ghost var base: nat
    ghost var view: View

    ghost predicate Valid()
      reads this, buf, reader
    {
      && 0 <= raw.start <= raw.end <= len <= buf.Length && buf.Length > 0
      && base + len <= |input| && buf[..len] == input[base..base + len]
      && (if readErr.None? then input[base + len..] == Delivered(reader.script, 0) else base + len == |input|)
      && (err.Some? ==> readErr.Some? && raw.end == len)
      && view == Seen()
    }

    ghost function Seen(): View
      reads this
    {
      View(base + raw.start, base + raw.end, Shift(data, base), Shift(pendingKey, base), Shift(pendingVal, base),
           ShiftAll(attr, base))
    }

    function ModeNow(): Mode
      reads this
    {
      Mode(rawTag, textIsRaw, convertNul, err.Some?)
    }

    constructor (reader: Reader, contextTag: string, allowCdata: bool)
      ensures Valid() && fresh(buf) && this.reader == reader && this.allowCdata == allowCdata
      ensures input == Delivered(reader.script, 0) && view.pos == 0
      ensures ModeNow() == Mode(RawTagOf(contextTag), false, false, false)
    {
      this.reader, this.allowCdata := reader, allowCdata;
      tt, err, readErr := ErrorToken, None, None;
      raw, data, pendingKey, pendingVal, attr := Span(0, 0), Span(0, 0), Span(0, 0), Span(0, 0), [];
      buf := new char[4096];
      len := 0;
      rawTag, textIsRaw, convertNul := RawTagOf(contextTag), false, false;
      input, base := Delivered(reader.script, 0), 0;
      view := View(0, 0, Span(0, 0), Span(0, 0), Span(0, 0), []);
    }

    /** Reads until the reader gives bytes or an error. */
    method ReadAtLeastOneByte(room: nat) returns (bytes: string, error: Option<Error>)
      requires room > 0
      modifies reader
      ensures |bytes| <= room && (bytes == "" ==> error.Some?)
      ensures Delivered(old(reader.script), 0) == bytes + if error.Some? then "" else Delivered(reader.script, 0)
    {
      var i := 0;
      while i < MAX_EMPTY
        invariant i <= MAX_EMPTY
        invariant Delivered(old(reader.script), 0) == Delivered(reader.script, i)
      {
        bytes, error := reader.Read(room);
        if bytes != "" || error.Some? {
          return;
        }
        i := i + 1;
      }
      return "", Some(NoProgress);
    }

    /** The spans refer to the same bytes after the buffer moved down by `x`. */
    method ShiftSpans(x: int)
      modifies `data, `pendingKey, `pendingVal, `attr
      ensures data == Shift(old(data), 0 - x)
      ensures pendingKey == Shift(old(pendingKey), 0 - x) && pendingVal == Shift(old(pendingVal), 0 - x)
      ensures attr == ShiftAll(old(attr), 0 - x)
    {
      hide ShiftAll, Shift;
      data := Shift(data, 0 - x);
      pendingKey := Shift(pendingKey, 0 - x);
      pendingVal := Shift(pendingVal, 0 - x);
      ShiftAttrs(x);
    }

    method ShiftAttrs(x: int)
      modifies `attr
      ensures attr == ShiftAll(old(attr), 0 - x)
    {
      hide ShiftAll, Shift;
      ghost var was := attr;
      ShiftNone(was, 0 - x);
      var i := 0;
      while i < |attr|
        invariant i <= |attr| == |was|
        invariant attr == ShiftAll(was[..i], 0 - x) + was[i..]
      {
        ShiftStep(was, i, 0 - x);
        attr := attr[i := (Shift(attr[i].0, 0 - x), Shift(attr[i].1, 0 - x))];
        i := i + 1;
      }
    }

    /** The bytes of the current token at the start of the buffer, or of a larger one. */
    method Relocate() returns (target: array<char>)
      requires 0 <= raw.start <= raw.end <= len <= buf.Length && buf.Length > 0
      modifies buf
      ensures target == buf || fresh(target)
      ensures var live := old(buf[raw.start..raw.end]); |live| < target.Length && target[..|live|] == live
    {
      var d := raw.end - raw.start;
      ghost var live := buf[raw.start..raw.end];
      target := buf;
      if 2 * d > buf.Length {
        target := new char[2 * buf.Length];
      }
      forall i | 0 <= i < d {
        target[i] := buf[raw.start + i];
      }
      assert forall i :: 0 <= i < d ==> target[i] == live[i];
    }

    /** What is before the current token is dropped: its spans keep their absolute positions. */
    method DropDone()
      requires 0 <= raw.start
      modifies `raw, `data, `pendingKey, `pendingVal, `attr, `base
      ensures raw == Span(0, old(raw.end - raw.start)) && base == old(base + raw.start) && Seen() == old(Seen())
    {
      hide ShiftAll;
      var x := raw.start;
      if x != 0 {
        ShiftBack(attr, base, x);
        ShiftSpans(x);
      }
      raw := Span(0, raw.end - x);
      base := base + x;
    }

    method MakeRoom()
      requires Valid() && raw.end == len && readErr.None?
      modifies this, buf
      ensures Valid() && raw.start == 0 && raw.end == len < buf.Length && (buf == old(buf) || fresh(buf))
      ensures view == old(view) && readErr.None? && err == old(err) && ModeNow() == old(ModeNow()) && tt == old(tt)
    {
      hide Delivered, ShiftAll;
      ghost var live := buf[raw.start..raw.end];
      assert live == buf[..len][raw.start..];
      assert live == input[base + raw.start..base + len];
      var target := Relocate();
      DropDone();
      len, buf := raw.end, target;
      assert buf[..len] == live;
    }

    /** What reading does not change. */
    function Flags(): (TokenType, string, bool, bool)
      reads this
    {
      (tt, rawTag, textIsRaw, convertNul)
    }

    /** Appends what the reader gives to the buffer. */
    method Fill()
      requires Valid() && raw.end == len < buf.Length && readErr.None? && err.None?
      modifies `len, `readErr, buf, reader
      ensures Valid() && len >= old(len) && (len == old(len) ==> readErr.Some?)
    {
      hide ShiftAll, Delivered;
      ghost var held := buf[..len];
      var bytes, error := ReadAtLeastOneByte(buf.Length - len);
      readErr := error;
      Store(bytes);
      Received(input, base, held, bytes, if error.Some? then "" else Delivered(reader.script, 0));
      len := len + |bytes|;
      assert buf[..len] == held + bytes == input[base..base + len];
    }

    /** Puts bytes behind those that are held. */
    method Store(bytes: string)
      requires len + |bytes| <= buf.Length
      modifies buf
      ensures buf[..len + |bytes|] == old(buf[..len]) + bytes
    {
      forall i | 0 <= i < |bytes| {
        buf[len + i] := bytes[i];
      }
    }

    /** Makes room for more bytes and reads them. */
    method Refill()
      requires Valid() && raw.end == len && readErr.None? && err.None?
      modifies this, buf, reader
      ensures Valid() && (buf == old(buf) || fresh(buf)) && Flags() == old(Flags()) && err.None?
      ensures view == old(view) && (raw.end == len ==> readErr.Some?)
    {
      hide Valid, Delivered;
      MakeRoom();
      Fill();
    }

    /** The next byte of the input, or an error at its end. */
    method ReadByte() returns (c: char)
      requires Valid()
      modifies this, buf, reader
      ensures Valid() && (buf == old(buf) || fresh(buf)) && Flags() == old(Flags())
      ensures err.Some? == (old(view).pos == |input|) && old(view).pos <= |input|
      ensures err.None? ==> old(err).None? && c == input[old(view).pos]
      ensures view == if err.Some? then old(view) else old(view).(pos := old(view).pos + 1)
    {
      hide ShiftAll, Delivered;
      if raw.end >= len {
        if readErr.Some? {
          err := readErr;
          return '\0';
        }
        Refill();
        if raw.end == len {
          err := readErr;
          return '\0';
        }
      }
      c := TakeByte();
    }

    method TakeByte() returns (c: char)
      requires Valid() && raw.end < len
      modifies `raw, `view
      ensures Valid() && 0 <= old(view).pos < |input| && c == input[old(view).pos]
      ensures view == old(view).(pos := old(view).pos + 1)
    {
      c := buf[raw.end];
      assert c == buf[..len][raw.end];
      raw := Span(raw.start, raw.end + 1);
      view := Seen();
    }

    /** Reconsumes the last `n` bytes of the token. */
    method BackUp(n: nat)
      requires Valid() && err.None? && view.start + n <= view.pos
      modifies `raw, `view
      ensures Valid() && view == old(view).(pos := old(view).pos - n) && raw.end == old(raw).end - n
    {
      raw := Span(raw.start, raw.end - n);
      view := Seen();
    }

    method DataFrom(d: int)
      requires Valid()
      modifies `data, `view
      ensures Valid() && view == old(view).(data := Span(old(view).pos + d, old(view).data.end))
    {
      data := Span(raw.end + d, data.end);
      view := Seen();
    }

    method DataTo(d: int)
      requires Valid()
      modifies `data, `view
      ensures Valid() && view == old(view).(data := Span(old(view).data.start, old(view).pos + d))
    {
      data := Span(data.start, raw.end + d);
      view := Seen();
    }

    method KeyFrom(d: int)
      requires Valid()
      modifies `pendingKey, `view
      ensures Valid() && view == old(view).(key := Span(old(view).pos + d, old(view).key.end))
    {
      pendingKey := Span(raw.end + d, pendingKey.end);
      view := Seen();
    }

    method KeyTo(d: int)
      requires Valid()
      modifies `pendingKey, `view
      ensures Valid() && view == old(view).(key := Span(old(view).key.start, old(view).pos + d))
    {
      pendingKey := Span(pendingKey.start, raw.end + d);
      view := Seen();
    }

    method ValFrom(d: int)
      requires Valid()
      modifies `pendingVal, `view
      ensures Valid() && view == old(view).(val := Span(old(view).pos + d, old(view).val.end))
    {
      pendingVal := Span(raw.end + d, pendingVal.end);
      view := Seen();
    }

    method ValTo(d: int)
      requires Valid()
      modifies `pendingVal, `view
      ensures Valid() && view == old(view).(val := Span(old(view).val.start, old(view).pos + d))
    {
      pendingVal := Span(pendingVal.start, raw.end + d);
      view := Seen();
    }

    lemma InBounds()
      requires Valid()
      ensures 0 <= view.start <= view.pos <= |input| && (err.Some? ==> view.pos == |input|) && raw.end <= len
    {
    }

    /** Reads up to and including the first byte that ends `e`. */
    method ReadPast(e: Ender) returns (c: char)
      requires Valid()
      modifies this, buf, reader
      ensures Valid() && (buf == old(buf) || fresh(buf)) && Flags() == old(Flags())
      ensures Passed(input, e, old(view), view, err.Some?) && (err.None? ==> c == input[view.pos - 1])
    {
      hide Valid, Ends, IsSpace;
      InBounds();
      ghost var p := view.pos;
      while true
        invariant Valid() && (buf == old(buf) || fresh(buf)) && Flags() == old(Flags())
        invariant p <= view.pos <= |input| && view == old(view).(pos := view.pos)
        invariant Find(input, p, e) == Find(input, view.pos, e)
        decreases |input| - view.pos
      {
        c := ReadByte();
        if err.Some? || Ends(e, c) {
          return;
        }
      }
    }

    method SkipWhiteSpace()
      requires Valid()
      modifies this, buf, reader
      ensures Valid() && (buf == old(buf) || fresh(buf)) && Flags() == old(Flags())
      ensures SpaceSkipped(input, old(view), view, err.Some?)
    {
      hide Valid, IsSpace;
      InBounds();
      if err.Some? {
        return;
      }
      ghost var p := view.pos;
      while true
        invariant Valid() && (buf == old(buf) || fresh(buf)) && Flags() == old(Flags())
        invariant err.None? && p <= view.pos <= |input| && view == old(view).(pos := view.pos)
        invariant Find(input, p, NotSpace) == Find(input, view.pos, NotSpace)
        decreases |input| - view.pos
      {
        var c := ReadByte();
        if err.Some? {
          return;
        }
        if !IsSpace(c) {
          BackUp(1);
          return;
        }
      }
    }

    /** The name of a tag, the first byte of which has been read. */
    method ReadTagName()
      requires Valid() && err.None? && view.start < view.pos
      modifies this, buf, reader
      ensures Valid() && (buf == old(buf) || fresh(buf)) && Flags() == old(Flags())
      ensures NameRead(input, old(view), view, err.Some?)
    {
      hide Valid, Ends, IsSpace;
      InBounds();
      DataFrom(-1);
      var c := ReadPast(EndsName);
      if err.Some? {
        DataTo(0);
      } else if IsSpace(c) {
        DataTo(-1);
      } else {
        BackUp(1);
        DataTo(0);
      }
    }

    method ReadTagAttrKey()
      requires Valid() && err.None?
      modifies this, buf, reader
      ensures Valid() && (buf == old(buf) || fresh(buf)) && Flags() == old(Flags())
      ensures KeyRead(input, old(view), view, err.Some?)
    {
      hide Valid, Passed, KeyRead;
      ghost var was := view;
      InBounds();
      KeyFrom(0);
      var c := ReadPast(EndsKey);
      KeyPassed(input, was, view, err.Some?);
      if err.Some? {
        KeyTo(0);
      } else if c == '=' || c == '>' {
        BackUp(1);
        KeyTo(0);
      } else {
        KeyTo(-1);
      }
    }

    method ReadTagAttrVal()
      requires Valid()
      modifies this, buf, reader
      ensures Valid() && (buf == old(buf) || fresh(buf)) && Flags() == old(Flags())
      ensures ValRead(input, old(view), view, err.Some?)
    {
      hide Valid, Ends, IsSpace, Value, ValueAt;
      InBounds();
      ValFrom(0);
      ValTo(0);
      SkipWhiteSpace();
      if err.Some? {
        return;
      }
      var c := ReadByte();
      if c != '=' {
        BackUp(1);
        return;
      }
      ReadValue(view.val.start);
    }

    /** The value after the equals sign; it is empty, at `p`, until it starts. */
    method ReadValue(ghost p: int)
      requires Valid() && err.None? && view.val == Span(p, p) && 0 <= p < view.pos
      modifies this, buf, reader
      ensures Valid() && (buf == old(buf) || fresh(buf)) && Flags() == old(Flags())
      ensures ValueRead(input, p, old(view), view, err.Some?)
    {
      hide Valid, Ends, IsSpace;
      InBounds();
      SkipWhiteSpace();
      if err.None? {
        ReadValueAt(p);
      }
    }

    method ReadValueAt(ghost p: int)
      requires Valid() && err.None? && view.val == Span(p, p) && 0 <= p < view.pos < |input|
      modifies this, buf, reader
      ensures Valid() && (buf == old(buf) || fresh(buf)) && Flags() == old(Flags())
      ensures ValueAtRead(input, p, old(view), view, err.Some?)
    {
      hide Valid, Ends, IsSpace;
      InBounds();
      var quote := ReadByte();
      if quote == '>' {
        BackUp(1);
      } else if quote == '\'' || quote == '"' {
        ValFrom(0);
        var _ := ReadPast(Closes(quote));
        ValTo(if err.Some? then 0 else -1);
      } else {
        ReadUnquoted();
      }
    }

    method ReadUnquoted()
      requires Valid() && err.None? && 0 < view.pos
      modifies this, buf, reader
      ensures Valid() && (buf == old(buf) || fresh(buf)) && Flags() == old(Flags())
      ensures UnquotedRead(input, old(view), view, err.Some?)
    {
      hide Valid, Ends, IsSpace;
      InBounds();
      ValFrom(-1);
      var c := ReadPast(EndsValue);
      if err.Some? {
        ValTo(0);
      } else if c == '>' {
        BackUp(1);
        ValTo(0);
      } else {
        ValTo(-1);
      }
    }

    /** Adds the pending attribute unless its key is empty. */
    method KeepAttr()
      requires Valid()
      modifies `attr, `view
      ensures Valid()
      ensures view == old(view).(attrs := old(view).attrs +
                if old(view).key.start != old(view).key.end then [(old(view).key, old(view).val)] else [])
    {
      if pendingKey.start != pendingKey.end {
        ghost var n := |attr|;
        attr := attr + [(pendingKey, pendingVal)];
        view := Seen();
        assert view.attrs == ShiftAll(attr[..n], base) + [(Shift(pendingKey, base), Shift(pendingVal, base))];
      }
    }

    method ClearAttrs()
      requires Valid()
      modifies `attr, `view
      ensures Valid() && view == old(view).(attrs := [])
    {
      attr := [];
      view := Seen();
    }

    /** One attribute and the white space after it. */
    method ReadAttr(save: bool)
      requires Valid() && err.None? && 0 <= view.pos < |input|
      modifies this, buf, reader
      ensures Valid() && (buf == old(buf) || fresh(buf)) && Flags() == old(Flags())
      ensures AttrRead(input, save, old(view), view, err.Some?)
    {
      hide Valid, Find, AttrKey, AttrVal;
      InBounds();
      ReadTagAttrKey();
      ReadTagAttrVal();
      if save {
        KeepAttr();
      }
      SkipWhiteSpace();
    }

    /** The name and the attributes of a tag. */
    method ReadTag(save: bool)
      requires Valid() && err.None? && view.start < view.pos
      modifies this, buf, reader
      ensures Valid() && (buf == old(buf) || fresh(buf)) && Flags() == old(Flags())
      ensures TagRead(input, save, old(view), view, err.Some?)
    {
      hide Valid, Find, TagName, AttrRead;
      InBounds();
      ClearAttrs();
      ReadTagName();
      SkipWhiteSpace();
      if err.None? {
        ReadAttrs(save);
      }
    }

    method ReadAttrs(save: bool)
      requires Valid() && err.None? && view.attrs == [] && 0 <= view.pos < |input| && !IsSpace(input[view.pos])
      modifies this, buf, reader
      ensures Valid() && (buf == old(buf) || fresh(buf)) && Flags() == old(Flags())
      ensures AttrsRead(input, save, old(view), view, err.Some?)
    {
      hide Valid, Attrs, AttrRead, IsSpace;
      InBounds();
      ghost var rest := Attrs(input, view.pos);
      while true
        invariant Valid() && (buf == old(buf) || fresh(buf)) && Flags() == old(Flags())
        invariant err.None? && 0 <= view.pos < |input| && !IsSpace(input[view.pos])
        invariant view.start == old(view).start && view.data == old(view).data
        invariant Attrs(input, view.pos).1 == rest.1
        invariant if save then view.attrs + Attrs(input, view.pos).0 == rest.0 else view.attrs == []
        decreases |input| - view.pos
      {
        ghost var was := view;
        var c := ReadByte();
        if c == '>' {
          AttrsEnd(input, was.pos);
          return;
        }
        BackUp(1);
        ReadAttr(save);
        AttrsStep(input, save, was, view, err.Some?);
        if err.Some? {
          return;
        }
      }
    }

    /** Reads as much of `tag` as is here; a byte that does not fit is reconsumed. */
    method ReadTagWord(tag: string) returns (whole: bool)
      requires Valid() && err.None?
      modifies this, buf, reader
      ensures Valid() && (buf == old(buf) || fresh(buf)) && Flags() == old(Flags())
      ensures TagWordRead(input, tag, old(view), view, err.Some?, whole)
    {
      hide Valid;
      InBounds();
      ghost var p := view.pos;
      var i := 0;
      while i < |tag|
        invariant Valid() && (buf == old(buf) || fresh(buf)) && Flags() == old(Flags())
        invariant err.None? && i <= |tag| && view == old(view).(pos := p + i) && p + i <= |input|
        invariant MatchTag(input, p, tag, 0) == MatchTag(input, p, tag, i)
      {
        var c := ReadByte();
        if err.Some? {
          return false;
        }
        if c != tag[i] && c != Down(tag[i]) {
          BackUp(1);
          return false;
        }
        i := i + 1;
      }
      whole := true;
    }

    /** Is the end tag of `tag` here? If so, it is reconsumed with the "</" before it. */
    method ReadRawEndTag(tag: string) returns (found: bool)
      requires Valid() && err.None? && view.start + 2 <= view.pos
      modifies this, buf, reader
      ensures Valid() && (buf == old(buf) || fresh(buf)) && Flags() == old(Flags())
      ensures RawEndTagRead(input, tag, old(view), view, err.Some?, found)
      ensures found ==> raw.end + 3 + |tag| <= len
    {
      hide Valid, Ends;
      InBounds();
      var whole := ReadTagWord(tag);
      if !whole {
        return false;
      }
      var c := ReadByte();
      if err.Some? {
        return false;
      }
      InBounds();
      found := Ends(EndsName, c);
      BackUp(if found then 3 + |tag| else 1);
    }

    method ReadRawText(tag: string)
      requires Valid() && err.None?
      modifies this, buf, reader
      ensures Valid() && (buf == old(buf) || fresh(buf)) && Flags() == old(Flags())
      ensures RawTextRead(input, tag, old(view), view, err.Some?)
    {
      hide Valid, RawEndTag;
      InBounds();
      ghost var p := view.pos;
      while true
        invariant Valid() && (buf == old(buf) || fresh(buf)) && Flags() == old(Flags())
        invariant err.None? && p <= view.pos <= |input| && view == old(view).(pos := view.pos)
        invariant RawText(input, p, tag) == RawText(input, view.pos, tag)
        decreases |input| - view.pos
      {
        var c := ReadByte();
        if err.Some? {
          break;
        }
        if c == '<' {
          c := ReadByte();
          if err.Some? {
            break;
          }
          if c == '/' {
            var found := ReadRawEndTag(tag);
            if found || err.Some? {
              break;
            }
          }
        }
      }
    }

    /** Reads until the next "</script" that nothing hides. */
    method ReadScript()
      requires Valid() && err.None?
      modifies this, buf, reader
      ensures Valid() && (buf == old(buf) || fresh(buf)) && Flags() == old(Flags())
      ensures ScriptRead(input, Data, old(view), view, err.Some?)
    {
      hide Valid, ScriptStep;
      InBounds();
      ghost var p := view.pos;
      var q := Data;
      var more := true;
      while more
        invariant Valid() && (buf == old(buf) || fresh(buf)) && Flags() == old(Flags())
        invariant view.start <= view.pos - (if more then Behind(q) else 0) && view == old(view).(pos := view.pos) &&
          0 <= view.pos <= |input|
        invariant more ==> err.None? && Script(input, p, Data) == Script(input, view.pos, q)
        invariant !more ==> Script(input, p, Data) == Stop(view.pos, err.Some?)
        decreases more, |input| - view.pos, Rank(q)
      {
        if ReadsByte(q) {
          q, more := ReadScriptByte(q);
        } else if q == DoubleEscapeStart {
          q, more := ReadDoubleEscapeStart();
        } else {
          q, more := ReadScriptEndTag(q);
        }
      }
    }

    /** A state that reads one byte. */
    method ReadScriptByte(q: ScriptState) returns (q': ScriptState, more: bool)
      requires Valid() && err.None? && ReadsByte(q) && view.start <= view.pos - Behind(q)
      modifies this, buf, reader
      ensures Valid() && (buf == old(buf) || fresh(buf)) && Flags() == old(Flags())
      ensures ScriptGoesOn(input, q, old(view), view, err.Some?, q', more)
    {
      hide Valid, ScriptStep, ReadsByte, ScriptGoesOn;
      InBounds();
      ghost var was := view;
      var c := ReadByte();
      if err.Some? {
        ScriptStops(input, q, was, view);
        return q, false;
      }
      var (q1, consumed) := ScriptStep(q, c);
      if !consumed {
        BackUp(1);
      }
      ScriptSteps(input, q, was, view);
      return q1, true;
    }

    /** Does an escaped "<" start a script? */
    method ReadDoubleEscapeStart() returns (q': ScriptState, more: bool)
      requires Valid() && err.None?
      modifies this, buf, reader
      ensures Valid() && (buf == old(buf) || fresh(buf)) && Flags() == old(Flags())
      ensures ScriptGoesOn(input, DoubleEscapeStart, old(view), view, err.Some?, q', more)
    {
      hide Valid, Ends, Script, MatchTag;
      InBounds();
      ScriptWord(input, view.pos);
      var whole := ReadTagWord(SCRIPT);
      if !whole {
        return Escaped, err.None?;
      }
      var c := ReadByte();
      if err.Some? {
        return Escaped, false;
      }
      if Ends(EndsName, c) {
        return DoubleEscaped, true;
      }
      BackUp(1);
      return Escaped, true;
    }

    /** Is this the end tag of the script? */
    method ReadScriptEndTag(q: ScriptState) returns (q': ScriptState, more: bool)
      requires Valid() && err.None? && Behind(q) == 2 && view.start <= view.pos - Behind(q)
      modifies this, buf, reader
      ensures Valid() && (buf == old(buf) || fresh(buf)) && Flags() == old(Flags())
      ensures ScriptGoesOn(input, q, old(view), view, err.Some?, q', more)
    {
      hide Valid, RawEndTag;
      InBounds();
      var found := ReadRawEndTag(SCRIPT);
      if q == DoubleEscapeEnd {
        if found {
          Forward(3 + |SCRIPT|);
          return Escaped, true;
        }
        return DoubleEscaped, err.None?;
      }
      return if q == EndTagOpen then Data else Escaped, !found && err.None?;
    }

    /** Takes back part of a `BackUp`. */
    method Forward(n: nat)
      requires Valid() && err.None? && raw.end + n <= len
      modifies `raw, `view
      ensures Valid() && view == old(view).(pos := old(view).pos + n)
    {
      hide ShiftAll, Delivered;
      raw := Span(raw.start, raw.end + n);
      view := Seen();
    }

    /** A comment; the opening "<!--" has been read. */
    method ReadComment()
      requires Valid() && err.None?
      modifies this, buf, reader
      ensures Valid() && (buf == old(buf) || fresh(buf)) && Flags() == old(Flags())
      ensures CommentRead(input, old(view), view, err.Some?)
    {
      hide Valid;
      InBounds();
      DataFrom(0);
      ReadCommentEnd();
      Lengths();
      if data.end < data.start {
        EmptyData();
      }
    }

    lemma Lengths()
      requires Valid()
      ensures data.end - data.start == view.data.end - view.data.start && raw.end - raw.start == view.pos - view.start
    {
    }

    method EmptyData()
      requires Valid()
      modifies `data, `view
      ensures Valid() && view == old(view).(data := Span(old(view).data.start, old(view).data.start))
    {
      data := Span(data.start, data.start);
      view := Seen();
    }

    method ReadCommentEnd()
      requires Valid() && err.None?
      modifies this, buf, reader
      ensures Valid() && (buf == old(buf) || fresh(buf)) && Flags() == old(Flags())
      ensures CommentEndRead(input, old(view), view, err.Some?)
    {
      hide Valid, Comment;
      InBounds();
      ghost var p := view.pos;
      var dashes := 2;
      while true
        invariant Valid() && (buf == old(buf) || fresh(buf)) && Flags() == old(Flags())
        invariant err.None? && p <= view.pos <= |input| && view == old(view).(pos := view.pos)
        invariant Comment(input, p, 2) == Comment(input, view.pos, dashes)
        decreases |input| - view.pos
      {
        CommentOne(input, view.pos, dashes);
        var c := ReadByte();
        if err.Some? {
          DataTo(0 - (if dashes > 2 then 2 else dashes));
          return;
        }
        if c == '-' {
          dashes := dashes + 1;
          continue;
        }
        if c == '>' && dashes >= 2 {
          DataTo(-3);
          return;
        }
        if c == '!' && dashes >= 2 {
          c := ReadByte();
          if err.Some? {
            DataTo(0);
            return;
          }
          if c == '>' {
            DataTo(-4);
            return;
          }
        }
        dashes := 0;
      }
    }

    method ReadUntilCloseAngle()
      requires Valid()
      modifies this, buf, reader
      ensures Valid() && (buf == old(buf) || fresh(buf)) && Flags() == old(Flags())
      ensures UntilRead(input, old(view), view, err.Some?)
    {
      hide Valid, Find;
      InBounds();
      DataFrom(0);
      var _ := ReadPast(Closes('>'));
      DataTo(if err.Some? then 0 else -1);
    }

    /** Backs up to the start of the data. */
    method BackToData()
      requires Valid() && err.None? && view.start <= view.data.start <= view.pos
      modifies `raw, `view
      ensures Valid() && view == old(view).(pos := old(view).data.start)
    {
      hide ShiftAll, Delivered;
      raw := Span(raw.start, data.start);
      view := Seen();
    }

    /** Reads `word`, or backs up to where it should start. */
    method ReadWord(word: string, fold: bool) returns (whole: bool)
      requires Valid() && (err.None? ==> view.start <= view.data.start == view.pos) && word != ""
      modifies this, buf, reader
      ensures Valid() && (buf == old(buf) || fresh(buf)) && Flags() == old(Flags())
      ensures WordRead(input, word, fold, old(view), view, err.Some?, whole)
    {
      hide Valid;
      InBounds();
      ghost var p := view.pos;
      var i := 0;
      whole := false;
      while i < |word|
        invariant Valid() && (buf == old(buf) || fresh(buf)) && Flags() == old(Flags())
        invariant 0 <= i <= |word| && view == old(view).(pos := p + i) && p + i <= |input| && (i > 0 ==> err.None?)
        invariant err.Some? ==> p == |input|
        invariant MatchWord(input, p, word, 0, fold) == MatchWord(input, p, word, i, fold)
      {
        var c := ReadByte();
        if err.Some? {
          DataTo(0);
          return;
        }
        if c != word[i] && (!fold || c != Up(word[i])) {
          BackToData();
          return;
        }
        i := i + 1;
      }
      whole := true;
    }

    method ReadDoctype() returns (found: bool)
      requires Valid() && err.None? && view.start <= view.data.start == view.pos
      modifies this, buf, reader
      ensures Valid() && (buf == old(buf) || fresh(buf)) && Flags() == old(Flags())
      ensures DoctypeRead(input, old(view), view, err.Some?, found)
    {
      hide Valid, Find, MatchWord;
      InBounds();
      found := ReadWord(DOCTYPE, true);
      if found {
        SkipWhiteSpace();
        if err.Some? {
          DataFrom(0);
          DataTo(0);
        } else {
          ReadUntilCloseAngle();
        }
      }
    }

    method ReadCdata() returns (found: bool)
      requires Valid() && (err.None? ==> view.start <= view.data.start == view.pos)
      modifies this, buf, reader
      ensures Valid() && (buf == old(buf) || fresh(buf)) && Flags() == old(Flags())
      ensures CdataRead(input, old(view), view, err.Some?, found)
    {
      hide Valid, MatchWord;
      InBounds();
      found := ReadWord(CDATA, false);
      if found {
        DataFrom(0);
        ReadCdataEnd();
      }
    }

    method ReadCdataEnd()
      requires Valid() && err.None?
      modifies this, buf, reader
      ensures Valid() && (buf == old(buf) || fresh(buf)) && Flags() == old(Flags())
      ensures CdataEndRead(input, old(view), view, err.Some?)
    {
      hide Valid;
      InBounds();
      ghost var p := view.pos;
      var brackets := 0;
      while true
        invariant Valid() && (buf == old(buf) || fresh(buf)) && Flags() == old(Flags())
        invariant err.None? && p <= view.pos <= |input| && view == old(view).(pos := view.pos)
        invariant CdataEnd(input, p, 0) == CdataEnd(input, view.pos, brackets)
        decreases |input| - view.pos
      {
        var c := ReadByte();
        if err.Some? {
          DataTo(0);
          return;
        }
        if c == ']' {
          brackets := brackets + 1;
        } else if c == '>' && brackets >= 2 {
          DataTo(-3);
          return;
        } else {
          brackets := 0;
        }
      }
    }

    /** A comment, a doctype, a CDATA section or a bogus comment; "<!" has been read. */
    method ReadMarkupDeclaration() returns (typ: TokenType)
      requires Valid() && err.None?
      modifies this, buf, reader
      ensures Valid() && (buf == old(buf) || fresh(buf)) && Flags() == old(Flags())
      ensures MarkupRead(input, allowCdata, old(view), view, err.Some?, typ)
    {
      hide Valid, Declaration, Comment, MarkupDeclaration;
      InBounds();
      MarkupDeclarationIs(input, view.pos, allowCdata);
      DataFrom(0);
      var c0 := ReadByte();
      if err.Some? {
        DataTo(0);
        return CommentToken;
      }
      var c1 := ReadByte();
      if err.Some? {
        DataTo(0);
        return CommentToken;
      }
      if c0 == '-' && c1 == '-' {
        ReadComment();
        return CommentToken;
      }
      BackUp(2);
      typ := ReadDeclaration();
    }

    method ReadDeclaration() returns (typ: TokenType)
      requires Valid() && err.None? && view.start <= view.data.start == view.pos
      modifies this, buf, reader
      ensures Valid() && (buf == old(buf) || fresh(buf)) && Flags() == old(Flags())
      ensures DeclarationRead(input, allowCdata, old(view), view, err.Some?, typ)
    {
      hide Valid, DoctypeRead, CdataRead, UntilRead, DeclarationRead;
      ghost var was := view;
      InBounds();
      var found := ReadDoctype();
      if found {
        DoctypeDeclared(input, allowCdata, was, view, err.Some?);
        return DoctypeToken;
      }
      ghost var mid, midEof := view, err.Some?;
      NoDoctype(input, was, mid, midEof);
      if allowCdata {
        found := ReadCdata();
        if found {
          CdataDeclared(input, was, mid, midEof, view, err.Some?);
          return TextToken;
        }
      }
      ghost var mid', midEof' := view, err.Some?;
      ReadUntilCloseAngle();
      CommentDeclared(input, allowCdata, was, mid, midEof, mid', midEof', view, err.Some?);
      return CommentToken;
    }

    method Become(tt: TokenType, rawTag: string, textIsRaw: bool, convertNul: bool)
      requires Valid()
      modifies `tt, `rawTag, `textIsRaw, `convertNul
      ensures Valid() && Flags() == (tt, rawTag, textIsRaw, convertNul)
    {
      this.tt, this.rawTag, this.textIsRaw, this.convertNul := tt, rawTag, textIsRaw, convertNul;
    }

    /** The bytes of the data of the token. */
    method DataBytes() returns (bytes: string)
      requires Valid() && view.start <= view.data.start <= view.data.end <= view.pos
      ensures 0 <= view.data.start <= view.data.end <= |input| && bytes == input[view.data.start..view.data.end]
    {
      InBounds();
      bytes := Bytes(data, view.data);
    }

    /** The unmodified text of the token. */
    method Raw() returns (bytes: string)
      requires Valid()
      ensures 0 <= view.start <= view.pos <= |input| && bytes == input[view.start..view.pos]
    {
      bytes := buf[raw.start..raw.end];
      assert bytes == buf[..len][raw.start..raw.end];
      Slice(input, base, len, raw.start, raw.end);
    }

    method Bytes(x: Span, ghost y: Span) returns (bytes: string)
      requires Valid() && y == Shift(x, base) && 0 <= view.start <= y.start <= y.end <= view.pos
      ensures y.end <= |input| && bytes == input[y.start..y.end]
    {
      bytes := buf[x.start..x.end];
      assert bytes == buf[..len][x.start..x.end];
      Slice(input, base, len, x.start, x.end);
    }

    lemma AttrsAre()
      requires Valid()
      ensures |attr| == |view.attrs| && view.pos <= |input|
      ensures forall i :: 0 <= i < |attr| ==> view.attrs[i] == (Shift(attr[i].0, base), Shift(attr[i].1, base))
    {
    }

    /** The keys and values of the attributes of the token, as they are written. */
    method TagAttrs() returns (texts: seq<(string, string)>)
      requires Valid() && 0 <= view.start <= view.pos && SpansInside(view.attrs, view.start, view.pos)
      ensures Texts(input, view.attrs, texts)
    {
      hide Valid, ShiftAll;
      AttrsAre();
      texts := [];
      for i := 0 to |attr|
        invariant |texts| == i
        invariant Texts(input, view.attrs[..i], texts)
      {
        var key := Bytes(attr[i].0, view.attrs[i].0);
        var val := Bytes(attr[i].1, view.attrs[i].1);
        texts := texts + [(key, val)];
      }
      assert view.attrs[..|attr|] == view.attrs;
    }

    method ByteBack(n: nat) returns (c: char)
      requires Valid() && 0 < n && view.start + n <= view.pos
      ensures 0 <= view.pos - n < |input| && c == input[view.pos - n]
    {
      c := buf[raw.end - n];
      assert c == buf[..len][raw.end - n];
    }

    /** A start tag; "<" and the first byte of its name have been read. */
    method ReadStartTag() returns (typ: TokenType)
      requires Valid() && err.None? && view.start + 2 == view.pos
      modifies this, buf, reader
      ensures Valid() && (buf == old(buf) || fresh(buf))
      ensures StartTagRead(input, old(ModeNow()), ModeNow(), old(view), view, typ) && tt == old(tt)
    {
      hide Valid, TagAt;
      InBounds();
      ReadTag(true);
      if err.Some? {
        return ErrorToken;
      }
      InBounds();
      var name := DataBytes();
      var raw := RawTagOf(name);
      if raw != "" {
        Become(tt, raw, textIsRaw, convertNul);
      }
      var c := ByteBack(2);
      return if c == '/' then SelfClosingTagToken else StartTagToken;
    }

    /** Reads up to and including the first two bytes of markup. */
    method ReadText() returns (c: char)
      requires Valid() && 0 <= view.pos && view.start == view.pos
      modifies this, buf, reader
      ensures Valid() && (buf == old(buf) || fresh(buf)) && Flags() == old(Flags())
      ensures TextRead(input, old(view), view, err.Some?, c)
    {
      hide Valid, Opens;
      InBounds();
      ghost var p := view.pos;
      while true
        invariant Valid() && (buf == old(buf) || fresh(buf)) && Flags() == old(Flags())
        invariant p <= view.pos <= |input| && view == old(view).(pos := view.pos) && (err.Some? ==> view.pos == |input|)
        invariant TextEnd(input, p) == TextEnd(input, view.pos)
        decreases |input| - view.pos
      {
        c := ReadByte();
        if err.Some? {
          return;
        }
        if c == '<' {
          c := ReadByte();
          if err.Some? {
            return;
          }
          if Opens(c) {
            return;
          }
          BackUp(1);
        }
      }
    }

    /** The markup that starts with "<" and `c`, which have been read. */
    method ReadMarkup(c: char)
      requires Valid() && err.None? && view.start + 2 == view.pos && view.data == Span(view.start, view.start) &&
        0 <= view.start && view.pos <= |input| && input[view.start] == '<' && c == input[view.start + 1] && Opens(c)
      modifies this, buf, reader
      ensures Valid() && (buf == old(buf) || fresh(buf))
      ensures TokenIs(MarkupAt(input, old(view).start, old(ModeNow()), allowCdata), old(view).start, view, ModeNow(),
        tt)
    {
      hide Valid, MarkupAt, IsLetter, TokenIs, StartTagRead;
      ghost var was, mode := view, ModeNow();
      var typ;
      if IsLetter(c) {
        typ := ReadStartTag();
        StartTagIs(input, mode, ModeNow(), was, view, typ, allowCdata);
      } else if c == '/' {
        typ := ReadEndTag();
      } else {
        typ := ReadBang(c);
      }
      Become(typ, rawTag, textIsRaw, convertNul);
    }

    /** A declaration or a processing instruction. */
    method ReadBang(c: char) returns (typ: TokenType)
      requires Valid() && err.None? && view.start + 2 == view.pos && view.data == Span(view.start, view.start)
      requires 0 <= view.start && view.pos <= |input| && input[view.start] == '<' && c == input[view.start + 1] &&
        Opens(c)
      requires !IsLetter(c) && c != '/'
      modifies this, buf, reader
      ensures Valid() && (buf == old(buf) || fresh(buf))
      ensures TokenIs(MarkupAt(input, old(view).start, old(ModeNow()), allowCdata), old(view).start, view, ModeNow(),
        typ)
    {
      hide Valid, TagAt, UntilCloseAngle, MarkupDeclaration, IsLetter, MarkupAt;
      BangIs(input, view.start, ModeNow(), allowCdata);
      if c == '!' {
        typ := ReadMarkupDeclaration();
        if typ == TextToken {
          Become(tt, rawTag, textIsRaw, true);
        }
      } else {
        BackUp(1);
        ReadUntilCloseAngle();
        typ := CommentToken;
      }
    }

    /** An end tag, or a comment if no name follows "</". */
    method ReadEndTag() returns (typ: TokenType)
      requires Valid() && err.None? && view.start + 2 == view.pos && view.data == Span(view.start, view.start) &&
        0 <= view.start && view.pos <= |input| && input[view.start] == '<' && input[view.start + 1] == '/'
      modifies this, buf, reader
      ensures Valid() && (buf == old(buf) || fresh(buf))
      ensures TokenIs(MarkupAt(input, old(view).start, old(ModeNow()), allowCdata), old(view).start, view, ModeNow(),
        typ) && Flags() == old(Flags())
    {
      hide Valid, TagAt, UntilCloseAngle, MarkupDeclaration;
      InBounds();
      var c := ReadByte();
      if err.Some? {
        DataTo(0);
        return TextToken;
      }
      if c == '>' {
        return CommentToken;
      }
      if IsLetter(c) {
        ReadTag(false);
        return if err.Some? then ErrorToken else EndTagToken;
      }
      BackUp(1);
      ReadUntilCloseAngle();
      return CommentToken;
    }

    /** Starts the next token where the last one ended. */
    method StartToken()
      requires Valid()
      modifies `raw, `data, `view
      ensures Valid() && view == old(view).(start := old(view).pos, data := Span(old(view).pos, old(view).pos))
    {
      hide ShiftAll, Delivered;
      raw := Span(raw.end, raw.end);
      data := Span(raw.end, raw.end);
      view := Seen();
    }

    /** The text of a raw element, up to its end tag. */
    method ReadRawElement()
      requires Valid() && err.None? && rawTag != "" && view.start == view.pos
      modifies this, buf, reader
      ensures Valid() && (buf == old(buf) || fresh(buf))
      ensures RawElementRead(input, old(ModeNow()), ModeNow(), old(view), view)
      ensures tt == old(tt) && convertNul == old(convertNul)
    {
      hide Valid, RawText, Script;
      InBounds();
      if rawTag == "plaintext" {
        ReadAll();
        Become(tt, rawTag, true, convertNul);
      } else if rawTag == SCRIPT {
        ReadScript();
        DataTo(0);
        Become(tt, "", true, convertNul);
      } else {
        ReadRawText(rawTag);
        DataTo(0);
        Become(tt, "", rawTag != "textarea" && rawTag != "title", convertNul);
      }
    }

    method ReadAll()
      requires Valid() && err.None?
      modifies this, buf, reader
      ensures Valid() && (buf == old(buf) || fresh(buf)) && Flags() == old(Flags())
      ensures err.Some? && view == old(view).(pos := |input|, data := Span(old(view).data.start, |input|))
    {
      hide Valid;
      InBounds();
      while err.None?
        invariant Valid() && (buf == old(buf) || fresh(buf)) && Flags() == old(Flags())
        invariant view == old(view).(pos := view.pos) && 0 <= view.pos <= |input| && (err.Some? ==> view.pos == |input|)
        decreases err.None?, |input| - view.pos
      {
        var _ := ReadByte();
      }
      DataTo(0);
    }

    /** Gives markup back that comes after text. */
    method EndText()
      requires Valid() && err.None? && view.start + 2 <= view.pos && view.data == Span(view.start, view.start)
      modifies `raw, `data, `view, `tt, `rawTag, `textIsRaw, `convertNul
      ensures Valid() && Flags() == (TextToken, old(rawTag), old(textIsRaw), old(convertNul))
      ensures view == old(view).(pos := old(view.pos) - 2, data := Span(old(view.start), old(view.pos) - 2))
    {
      hide Valid;
      BackUp(2);
      DataTo(0);
      Become(TextToken, rawTag, textIsRaw, convertNul);
    }

    /** The text in front of the end of the input, if there is any. */
    method EndInput()
      requires Valid() && err.Some? && view.data == Span(view.start, view.start)
      modifies `data, `view, `tt
      ensures Valid() && view.start <= view.pos == |input|
      ensures tt == (if view.start < |input| then TextToken else ErrorToken)
      ensures view == old(view).(data := Span(view.start, |input|))
    {
      hide Valid;
      InBounds();
      Lengths();
      if raw.start < raw.end {
        DataTo(0);
        SetType(TextToken);
      } else {
        SetType(ErrorToken);
      }
    }

    method SetType(tt: TokenType)
      requires Valid()
      modifies `tt
      ensures Valid() && this.tt == tt
    {
      this.tt := tt;
    }

    /** The next token outside of raw elements. */
    method NextData()
      requires Valid() && view.start == view.pos && view.data == Span(view.pos, view.pos)
      modifies this, buf, reader
      ensures Valid() && (buf == old(buf) || fresh(buf)) && 0 <= old(view).pos <= |input|
      ensures old(err).Some? ==> old(view).pos == |input|
      ensures TokenIs(LexData(input, old(view).pos, old(ModeNow()), allowCdata), old(view).pos, view, ModeNow(), tt)
    {
      hide Valid, TextEnd, MarkupAt, LexData;
      InBounds();
      LexDataIs(input, view.pos, ModeNow(), allowCdata);
      var c := ReadText();
      Lengths();
      if err.None? {
        if raw.end - 2 > raw.start {
          EndText();
        } else {
          ReadMarkup(c);
        }
      } else {
        EndInput();
      }
    }

    /** The next token, which starts where the last one ended. */
    method Next()
      requires Valid()
      modifies this, buf, reader
      ensures Valid() && (buf == old(buf) || fresh(buf)) && 0 <= old(view).pos <= |input|
      ensures old(err).Some? ==> old(view).pos == |input|
      ensures TokenIs(Lex(input, old(view).pos, old(ModeNow()), allowCdata), old(view).pos, view, ModeNow(), tt)
    {
      hide Valid, RawEnd, LexData;
      InBounds();
      StartToken();
      if err.Some? {
        Become(ErrorToken, rawTag, textIsRaw, convertNul);
        return;
      }
      if rawTag != "" {
        ReadRawElement();
        Lengths();
        if data.end > data.start {
          Become(TextToken, rawTag, textIsRaw, true);
          return;
        }
      }
      Become(tt, rawTag, false, false);
      NextData();
    }

    /** The next token with its raw text and its data. */
    method NextFound() returns (f: Found)
      requires Valid()
      modifies this, buf, reader
      ensures Valid() && (buf == old(buf) || fresh(buf))
      ensures 0 <= old(view).pos <= |input| && (old(err).Some? ==> old(view).pos == |input|)
      ensures var t := Lex(input, old(view).pos, old(ModeNow()), allowCdata);
        && FoundAt(f, input, old(view).pos, t)
        && view.pos == t.pos && ModeNow() == t.mode
    {
      hide Valid, Lex, SpansInside;
      InBounds();
      ghost var p, m := view.pos, ModeNow();
      Next();
      LexSpans(input, p, m, allowCdata);
      var raw := Raw();
      var data := DataBytes();
      f := Found(tt, raw, data, []);
      if tt == StartTagToken || tt == SelfClosingTagToken {
        var texts := TagAttrs();
        f := f.(attrs := texts);
      }
    }
  }

  lemma Slice(s: string, p: nat, n: nat, a: nat, b: nat)
    requires p + n <= |s| && a <= b <= n
    ensures s[p..p + n][a..b] == s[p + a..p + b]
  {
    var left, right := s[p..p + n][a..b], s[p + a..p + b];
    assert forall k :: 0 <= k < b - a ==> left[k] == right[k];
  }

  lemma AttrsEnd(s: string, p: nat)
    requires p < |s| && s[p] == '>' && !IsSpace(s[p])
    ensures Attrs(s, p) == ([], Stop(p + 1, false))
  {
  }

  lemma AttrsStep(s: string, save: bool, was: View, now: View, eof: bool)
    requires AttrRead(s, save, was, now, eof) && !IsSpace(s[was.pos]) && s[was.pos] != '>'
    ensures was.pos < now.pos <= |s| && (now.pos < |s| ==> !IsSpace(s[now.pos])) && eof == (now.pos == |s|)
    ensures now.start == was.start && now.data == was.data
    ensures Attrs(s, was.pos).1 == Attrs(s, now.pos).1
    ensures save ==> was.attrs + Attrs(s, was.pos).0 == now.attrs + Attrs(s, now.pos).0
    ensures !save ==> now.attrs == was.attrs
    ensures eof ==> Attrs(s, now.pos) == ([], Stop(now.pos, true))
  {
    hide AttrKey, AttrVal, IsSpace, Find, Attrs;
    AttrsProgress(s, was.pos);
    AttrsOne(s, was.pos);
    var key := AttrKey(s, was.pos);
    var here := if key.0 != was.pos then [(Span(was.pos, key.0), AttrVal(s, key.1).0)] else [];
    assert was.attrs + (here + Attrs(s, now.pos).0) == (was.attrs + here) + Attrs(s, now.pos).0;
    AttrsAtEnd(s);
  }

  lemma AttrsAtEnd(s: string)
    ensures Attrs(s, |s|) == ([], Stop(|s|, true))
  {
  }

  lemma Received(input: string, base: nat, held: string, bytes: string, rest: string)
    requires base + |held| <= |input| && input[base..base + |held|] == held && input[base + |held|..] == bytes + rest
    ensures var n := base + |held| + |bytes|; n <= |input| && input[base..n] == held + bytes && input[n..] == rest
  {
    var p := base + |held|;
    assert |input[p..]| == |input| - p;
    assert input[p..p + |bytes|] == input[p..][..|bytes|] == bytes;
    assert input[p + |bytes|..] == input[p..][|bytes|..] == rest;
    assert input[base..p + |bytes|] == input[base..p] + input[p..p + |bytes|];
  }

  lemma ShiftNone(xs: seq<(Span, Span)>, n: int)
    ensures ShiftAll(xs[..0], n) + xs[0..] == xs
    ensures ShiftAll(xs[..|xs|], n) + xs[|xs|..] == ShiftAll(xs, n)
  {
    assert xs[..|xs|] == xs;
  }

  lemma ShiftStep(xs: seq<(Span, Span)>, i: nat, n: int)
    requires i < |xs|
    ensures var now := ShiftAll(xs[..i], n) + xs[i..];
      now[i] == xs[i] && now[i := (Shift(xs[i].0, n), Shift(xs[i].1, n))] == ShiftAll(xs[..i + 1], n) + xs[i + 1..]
  {
  }

  lemma ShiftBack(attrs: seq<(Span, Span)>, base: int, x: int)
    ensures ShiftAll(ShiftAll(attrs, 0 - x), base + x) == ShiftAll(attrs, base)
  {
  }

  /** A token: its type, its raw text, its data, and the keys and values of a start tag. */
  datatype Found = Found(typ: TokenType, raw: string, data: string, attrs: seq<(string, string)>)

  /** The texts at pairs of spans. */
  ghost predicate Texts(s: string, spans: seq<(Span, Span)>, texts: seq<(string, string)>) {
    && |texts| == |spans|
    && forall k :: 0 <= k < |spans| ==>
         var (key, val) := spans[k];
         && 0 <= key.start <= key.end <= |s| && texts[k].0 == s[key.start..key.end]
         && 0 <= val.start <= val.end <= |s| && texts[k].1 == s[val.start..val.end]
  }

  /** The token `t` of the text, which starts at `p`. */
  ghost predicate FoundAt(f: Found, s: string, p: int, t: Lexed) {
    && f.typ == t.typ && 0 <= p <= t.pos <= |s| && f.raw == s[p..t.pos]
    && 0 <= t.data.start <= t.data.end <= |s| && f.data == s[t.data.start..t.data.end]
    && if t.typ == StartTagToken || t.typ == SelfClosingTagToken then Texts(s, t.attrs, f.attrs) else f.attrs == []
  }

  function Joined(found: seq<Found>): string {
    if found == [] then "" else found[0].raw + Joined(found[1..])
  }

  /** The tokens found are those of the text. */
  ghost predicate Agree(found: seq<Found>, s: string, ps: seq<Piece>) {
    && |found| == |ps|
    && forall i :: 0 <= i < |ps| ==>
         var t := ps[i].token;
         && found[i].raw == ps[i].raw && FoundAt(found[i], s, t.pos - |ps[i].raw|, t)
  }

  lemma {:induction false} JoinedIsConcat(found: seq<Found>, s: string, ps: seq<Piece>)
    requires Agree(found, s, ps)
    ensures Joined(found) == Concat(ps)
    decreases |found|
  {
    if found != [] {
      JoinedIsConcat(found[1..], s, ps[1..]);
    }
  }

  lemma NextAgrees(found: seq<Found>, f: Found, s: string, all: seq<Piece>, p: nat, m: Mode, allowCdata: bool)
    requires p <= |s| && (m.eof ==> p == |s|) && |found| <= |all| && Agree(found, s, all[..|found|])
    requires all[|found|..] == Pieces(s, p, m, allowCdata)
    requires FoundAt(f, s, p, Lex(s, p, m, allowCdata))
    ensures |found| < |all| && Agree(found + [f], s, all[..|found| + 1])
    ensures var t := Lex(s, p, m, allowCdata);
      if f.typ == ErrorToken then |found| + 1 == |all|
      else all[|found| + 1..] == Pieces(s, t.pos, t.mode, allowCdata)
  {
    hide Lex;
    var n := |found|;
    var rest := all[n..];
    assert all[n] == rest[0] && all[n + 1..] == rest[1..];
  }

  /** Tokenizes everything a reader delivers. The tokens, their raw texts, data and attributes
    * depend on the text alone, not on the pieces it comes in; the raw texts joined are the text,
    * and every token is the one that its characters spell. */
  method Tokenize(script: seq<Reply>, contextTag: string, allowCdata: bool) returns (found: seq<Found>)
    ensures var s := Delivered(script, 0);
      Agree(found, s, Pieces(s, 0, Mode(RawTagOf(contextTag), false, false, false), allowCdata))
    ensures var s, m := Delivered(script, 0), Mode(RawTagOf(contextTag), false, false, false);
      HtmlMarkup.Told(s, 0, m, allowCdata, Pieces(s, 0, m, allowCdata))
    ensures HtmlMarkup.RawAfter(contextTag, "", RawTagOf(contextTag))
    ensures Joined(found) == Delivered(script, 0)
    ensures 0 < |found| <= |Delivered(script, 0)| + 1
  {
    hide Lex, Delivered, Joined, Concat, Pieces, Agree, RawTagOf, Tokenizer.Valid, HtmlMarkup.Told;
    var reader := new Reader(script);
    var z := new Tokenizer(reader, contextTag, allowCdata);
    ghost var s := z.input;
    ghost var m := z.ModeNow();
    ghost var all := Pieces(s, 0, m, allowCdata);
    found := [];
    NothingYet(s);
    assert all[..0] == [] && all[0..] == all;
    var more := true;
    while more
      invariant fresh(z) && fresh(z.buf) && fresh(z.reader) && z.input == s && z.allowCdata == allowCdata
      invariant z.Valid() && 0 <= z.view.pos <= |s| && (z.err.Some? ==> z.view.pos == |s|)
      invariant |found| <= |all| && Agree(found, s, all[..|found|])
      invariant if more then all[|found|..] == Pieces(s, z.view.pos, z.ModeNow(), allowCdata) else |found| == |all|
      decreases |all| - |found|
    {
      ghost var p, mode := z.view.pos, z.ModeNow();
      var f := z.NextFound();
      NextAgrees(found, f, s, all, p, mode, allowCdata);
      found := found + [f];
      more := f.typ != ErrorToken;
    }
    NothingLeft(found, s, m, allowCdata);
    HtmlMarkup.RawAfterIs(contextTag, "");
    HtmlMarkup.FromContext(contextTag);
    HtmlMarkup.AllTold(s, 0, m, allowCdata);
  }

  lemma NothingLeft(found: seq<Found>, s: string, m: Mode, allowCdata: bool)
    requires !m.eof
    requires var all := Pieces(s, 0, m, allowCdata); |found| == |all| && Agree(found, s, all[..|found|])
    ensures Agree(found, s, Pieces(s, 0, m, allowCdata)) && Joined(found) == s && 0 < |found| <= |s| + 1
  {
    hide Lex, Joined, Concat, Pieces, Agree;
    var all := Pieces(s, 0, m, allowCdata);
    assert all[..|found|] == all;
    JoinedIsConcat(found, s, all);
    Lossless(s, 0, m, allowCdata);
  }

  lemma NothingYet(s: string)
    ensures Agree([], s, [])
  {
  }
}
