/** What the HTML tokenizer (x/net/html/token.go) finds in a text, as functions of the whole
  * text and absolute positions in it. A byte is modelled by the character with its code. */
module HtmlLex {
  datatype TokenType =
    | ErrorToken | TextToken | StartTagToken | EndTagToken | SelfClosingTagToken | CommentToken | DoctypeToken

  datatype Span = Span(start: int, end: int)

  /** Where a scan stopped, and whether it tried to read past the end. */
  datatype Stop = Stop(pos: nat, eof: bool)

  predicate IsSpace(c: char) {
    c == ' ' || c == '\n' || c == '\r' || c == '\t' || c == '\U{000C}'
  }

  predicate IsLetter(c: char) {
    'a' <= c <= 'z' || 'A' <= c <= 'Z'
  }

  /** The byte that is 32 less, or more, modulo 256. */
  function Down(c: char): char {
    ((c as int + 224) % 256) as char
  }

  function Up(c: char): char {
    ((c as int + 32) % 256) as char
  }

  function Lower(s: string): string {
    seq(|s|, i requires 0 <= i < |s| => if 'A' <= s[i] <= 'Z' then Up(s[i]) else s[i])
  }

  /** The bytes that end something. */
  datatype Ender = NotSpace | EndsName | EndsKey | EndsValue | Closes(c: char)

  predicate Ends(e: Ender, c: char) {
    match e
    case NotSpace => !IsSpace(c)
    case EndsName => IsSpace(c) || c == '/' || c == '>'
    case EndsKey => IsSpace(c) || c == '/' || c == '=' || c == '>'
    case EndsValue => IsSpace(c) || c == '>'
    case Closes(d) => c == d
  }

  /** The position of the first byte from `p` on that ends `e`. */
  function Find(s: string, p: nat, e: Ender): (i: nat)
    requires p <= |s|
    ensures p <= i <= |s| && (i < |s| ==> Ends(e, s[i]))
    decreases |s| - p
  {
    if p == |s| || Ends(e, s[p]) then p else Find(s, p + 1, e)
  }

  lemma {:induction false} FindsFirst(s: string, p: nat, e: Ender, k: nat)
    requires p <= |s| && p <= k < Find(s, p, e)
    ensures !Ends(e, s[k])
    decreases k - p
  {
    if k > p {
      FindsFirst(s, p + 1, e, k);
    }
  }

  // ----- Tags --------------------------------------------------------------------------

  /** Where a tag name that started before `p` ends, and where reading goes on. */
  function TagName(s: string, p: nat): (r: (nat, nat))
    requires p <= |s|
    ensures p <= r.0 <= r.1 <= |s|
  {
    var i := Find(s, p, EndsName);
    (i, if i < |s| && IsSpace(s[i]) then i + 1 else i)
  }

  function AttrKey(s: string, p: nat): (r: (nat, nat))
    requires p <= |s|
    ensures p <= r.0 <= r.1 <= |s|
  {
    var i := Find(s, p, EndsKey);
    (i, if i < |s| && s[i] != '=' && s[i] != '>' then i + 1 else i)
  }

  /** The span of a value that starts, with its quote if it has one, at `v`. */
  function ValueAt(s: string, v: nat, p: nat): (r: (Span, nat))
    requires p < v < |s|
    ensures p <= r.0.start <= r.0.end <= r.1 <= |s| && v <= r.1
  {
    if s[v] == '>' then (Span(p, p), v)
    else if s[v] == '"' || s[v] == '\'' then
      var i := Find(s, v + 1, Closes(s[v]));
      (Span(v + 1, i), if i < |s| then i + 1 else i)
    else
      var i := Find(s, v + 1, EndsValue);
      (Span(v, i), if i < |s| && s[i] != '>' then i + 1 else i)
  }

  /** The span of the value after the equals sign before `q`; an empty value is at `p`. */
  function Value(s: string, q: nat, p: nat): (r: (Span, nat))
    requires p < q <= |s|
    ensures p <= r.0.start <= r.0.end <= r.1 <= |s| && q <= r.1
  {
    var v := Find(s, q, NotSpace);
    if v == |s| then (Span(p, p), v) else ValueAt(s, v, p)
  }

  /** The span of the value that follows a key, and where reading goes on. */
  function AttrVal(s: string, p: nat): (r: (Span, nat))
    requires p <= |s|
    ensures p <= r.0.start <= r.0.end <= r.1 <= |s|
    ensures p < |s| && s[p] == '=' ==> p < r.1
  {
    var q := Find(s, p, NotSpace);
    if q == |s| || s[q] != '=' then (Span(p, p), q) else Value(s, q + 1, p)
  }

  /** The attributes from `p` on, and where the tag ends. */
  function Attrs(s: string, p: nat): (r: (seq<(Span, Span)>, Stop))
    requires p <= |s| && (p < |s| ==> !IsSpace(s[p]))
    ensures p <= r.1.pos <= |s| && (r.1.eof ==> r.1.pos == |s|)
    ensures !r.1.eof ==> p < r.1.pos && s[r.1.pos - 1] == '>'
    decreases |s| - p
  {
    if p == |s| then ([], Stop(p, true))
    else if s[p] == '>' then ([], Stop(p + 1, false))
    else
      var key := AttrKey(s, p);
      var val := AttrVal(s, key.1);
      var here := if key.0 != p then [(Span(p, key.0), val.0)] else [];
      var q := Find(s, val.1, NotSpace);
      AttrsProgress(s, p);
      var rest := Attrs(s, q);
      (here + rest.0, rest.1)
  }

  /** Reading an attribute always makes progress. */
  lemma AttrsProgress(s: string, p: nat)
    requires p < |s| && s[p] != '>' && !IsSpace(s[p])
    ensures p < Find(s, AttrVal(s, AttrKey(s, p).1).1, NotSpace)
  {
  }

  lemma AttrsOne(s: string, p: nat)
    requires p < |s| && !IsSpace(s[p]) && s[p] != '>'
    ensures var key := AttrKey(s, p);
      var val := AttrVal(s, key.1);
      var here := if key.0 != p then [(Span(p, key.0), val.0)] else [];
      var q := Find(s, val.1, NotSpace);
      && p < q <= |s| && (q < |s| ==> !IsSpace(s[q]))
      && Attrs(s, p) == (here + Attrs(s, q).0, Attrs(s, q).1)
  {
    hide AttrKey, AttrVal, Find;
    AttrsProgress(s, p);
  }

  datatype Tag = Tag(name: Span, attrs: seq<(Span, Span)>, stop: Stop)

  /** A tag whose name starts at `p - 1`. */
  function TagAt(s: string, p: nat): (t: Tag)
    requires 0 < p <= |s|
    ensures p - 1 == t.name.start < t.name.end <= t.stop.pos <= |s| && (t.stop.eof ==> t.stop.pos == |s|)
    ensures !t.stop.eof ==> p < t.stop.pos && s[t.stop.pos - 1] == '>'
  {
    var name := TagName(s, p);
    var q := Find(s, name.1, NotSpace);
    if q == |s| then Tag(Span(p - 1, name.0), [], Stop(q, true))
    else
      var rest := Attrs(s, q);
      Tag(Span(p - 1, name.0), rest.0, rest.1)
  }

  // ----- Raw text ----------------------------------------------------------------------

  const RAW_TAGS := ["iframe", "noembed", "noframes", "noscript", "plaintext", "script", "style", "textarea",
      "title", "xmp"]

  /** The tag that makes the next token raw text, or the empty string. */
  function RawTagOf(name: string): (tag: string)
    ensures tag != "" ==> tag in RAW_TAGS
  {
    if Lower(name) in RAW_TAGS then Lower(name) else ""
  }

  /** Does `tag`, in lower or upper case, start at `p`, and how much of it does? */
  function MatchTag(s: string, p: nat, tag: string, i: nat): (n: nat)
    requires p + i <= |s| && i <= |tag|
    ensures i <= n <= |tag| && p + n <= |s|
    decreases |tag| - i
  {
    if i == |tag| || p + i == |s| || (s[p + i] != tag[i] && s[p + i] != Down(tag[i])) then i
    else MatchTag(s, p, tag, i + 1)
  }

  /** Does the end tag whose name would start at `p` follow "</"? If it does not, reading goes
    * on behind the part that matches; if it does, before the "</". */
  function RawEndTag(s: string, p: nat, tag: string): (r: (bool, Stop))
    requires 2 <= p <= |s|
    ensures r.1.pos <= |s| && (r.1.eof ==> !r.0 && r.1.pos == |s|)
    ensures if r.0 then r.1.pos == p - 2 && p + |tag| < |s| else p <= r.1.pos
  {
    var n := MatchTag(s, p, tag, 0);
    if p + n == |s| then (false, Stop(|s|, true))
    else if n < |tag| then (false, Stop(p + n, false))
    else if Ends(EndsName, s[p + n]) then (true, Stop(p - 2, false))
    else (false, Stop(p + n, false))
  }

  /** Text up to the end tag of a raw or RCDATA element other than a script. */
  function RawText(s: string, p: nat, tag: string): (r: Stop)
    requires p <= |s|
    ensures p <= r.pos <= |s| && (r.eof ==> r.pos == |s|)
    decreases |s| - p
  {
    if p == |s| then Stop(p, true)
    else if s[p] != '<' then RawText(s, p + 1, tag)
    else if p + 1 == |s| then Stop(|s|, true)
    else if s[p + 1] != '/' then RawText(s, p + 2, tag)
    else
      var r := RawEndTag(s, p + 2, tag);
      if r.0 || r.1.eof then r.1 else RawText(s, r.1.pos, tag)
  }

  datatype ScriptState =
    | Data | LessThanSign | EndTagOpen | EscapeStart | EscapeStartDash
    | Escaped | EscapedDash | EscapedDashDash | EscapedLessThanSign | EscapedEndTagOpen
    | DoubleEscapeStart | DoubleEscaped | DoubleEscapedDash | DoubleEscapedDashDash
    | DoubleEscapedLessThanSign | DoubleEscapeEnd

  /** A state that may leave the position as it is goes to one of lower rank. */
  function Rank(q: ScriptState): nat {
    match q
    case Data => 0
    case Escaped => 0
    case DoubleEscaped => 0
    case EscapedDash => 0
    case EscapedDashDash => 0
    case DoubleEscapedDash => 0
    case DoubleEscapedDashDash => 0
    case EscapedLessThanSign => 2
    case _ => 1
  }

  const SCRIPT := "script"

  /** How many bytes before the position belong to an end tag that may start there. */
  function Behind(q: ScriptState): nat {
    match q
    case LessThanSign => 1
    case EscapedLessThanSign => 1
    case DoubleEscapedLessThanSign => 1
    case EndTagOpen => 2
    case EscapedEndTagOpen => 2
    case DoubleEscapeEnd => 2
    case _ => 0
  }

  /** The state after the byte `c`, and whether `c` is consumed: the states that read one byte. */
  function ScriptStep(q: ScriptState, c: char): (r: (ScriptState, bool))
    ensures if r.1 then Behind(r.0) <= Behind(q) + 1 else Behind(r.0) == 0 && Rank(r.0) < Rank(q)
  {
    match q
    case Data => (if c == '<' then LessThanSign else Data, true)
    case LessThanSign =>
      if c == '/' then (EndTagOpen, true) else if c == '!' then (EscapeStart, true) else (Data, false)
    case EscapeStart => if c == '-' then (EscapeStartDash, true) else (Data, false)
    case EscapeStartDash => if c == '-' then (EscapedDashDash, true) else (Data, false)
    case Escaped => (if c == '-' then EscapedDash else if c == '<' then EscapedLessThanSign else Escaped, true)
    case EscapedDash =>
      (if c == '-' then EscapedDashDash else if c == '<' then EscapedLessThanSign else Escaped, true)
    case EscapedDashDash =>
      (if c == '-' then EscapedDashDash else if c == '<' then EscapedLessThanSign
       else if c == '>' then Data else Escaped, true)
    case EscapedLessThanSign =>
      if c == '/' then (EscapedEndTagOpen, true)
      else if IsLetter(c) then (DoubleEscapeStart, false)
      else (Data, false)
    case DoubleEscaped =>
      (if c == '-' then DoubleEscapedDash else if c == '<' then DoubleEscapedLessThanSign else DoubleEscaped, true)
    case DoubleEscapedDash =>
      (if c == '-' then DoubleEscapedDashDash else if c == '<' then DoubleEscapedLessThanSign else DoubleEscaped, true)
    case DoubleEscapedDashDash =>
      (if c == '-' then DoubleEscapedDashDash else if c == '<' then DoubleEscapedLessThanSign
       else if c == '>' then Data else DoubleEscaped, true)
    case DoubleEscapedLessThanSign => if c == '/' then (DoubleEscapeEnd, true) else (DoubleEscaped, false)
    case _ => (Data, true)
  }

  predicate ReadsByte(q: ScriptState) {
    q != EndTagOpen && q != EscapedEndTagOpen && q != DoubleEscapeStart && q != DoubleEscapeEnd
  }

  /** Text up to the end tag of a script; `q` is reached at `p`. */
  function Script(s: string, p: nat, q: ScriptState): (r: Stop)
    requires Behind(q) <= p <= |s|
    ensures p - Behind(q) <= r.pos <= |s| && (r.eof ==> r.pos == |s|)
    decreases |s| - p, Rank(q)
  {
    if ReadsByte(q) then
      if p == |s| then Stop(p, true)
      else
        var (q', consumed) := ScriptStep(q, s[p]);
        Script(s, if consumed then p + 1 else p, q')
    else if q == DoubleEscapeStart then
      var n := MatchTag(s, p, SCRIPT, 0);
      if p + n == |s| then Stop(|s|, true)
      else if n < |SCRIPT| || !Ends(EndsName, s[p + n]) then Script(s, p + n, Escaped)
      else Script(s, p + n + 1, DoubleEscaped)
    else
      var r := RawEndTag(s, p, SCRIPT);
      if r.1.eof then r.1
      else if q == DoubleEscapeEnd then
        if r.0 then Script(s, p + |SCRIPT| + 1, Escaped) else Script(s, r.1.pos, DoubleEscaped)
      else if r.0 then r.1
      else Script(s, r.1.pos, if q == EndTagOpen then Data else Escaped)
  }

  lemma ScriptByte(s: string, p: nat, q: ScriptState)
    requires Behind(q) <= p <= |s| && ReadsByte(q)
    ensures p == |s| ==> Script(s, p, q) == Stop(p, true)
    ensures p < |s| ==>
      var (q', consumed) := ScriptStep(q, s[p]); Script(s, p, q) == Script(s, if consumed then p + 1 else p, q')
  {
    hide ScriptStep;
  }

  lemma ScriptWord(s: string, p: nat)
    requires p <= |s|
    ensures var n := MatchTag(s, p, SCRIPT, 0);
      Script(s, p, DoubleEscapeStart) ==
        if p + n == |s| then Stop(|s|, true)
        else if n < |SCRIPT| || !Ends(EndsName, s[p + n]) then Script(s, p + n, Escaped)
        else Script(s, p + n + 1, DoubleEscaped)
  {
    hide MatchTag, Ends;
  }

  // ----- Comments and declarations -----------------------------------------------------

  /** A comment whose data starts at `from`, after `dashes` dashes (two stand for the opening
    * ones): the end of the data and where reading stops. */
  function Comment(s: string, p: nat, dashes: nat): (r: (int, Stop))
    requires p <= |s|
    ensures r.0 <= r.1.pos && p <= r.1.pos <= |s| && (r.1.eof ==> r.1.pos == |s|)
    ensures !r.1.eof ==> p < r.1.pos && s[r.1.pos - 1] == '>'
    decreases |s| - p
  {
    if p == |s| then (p - (if dashes > 2 then 2 else dashes), Stop(p, true))
    else if s[p] == '-' then Comment(s, p + 1, dashes + 1)
    else if s[p] == '>' && dashes >= 2 then (p - 2, Stop(p + 1, false))
    else if s[p] == '!' && dashes >= 2 then
      if p + 1 == |s| then (p + 1, Stop(p + 1, true))
      else if s[p + 1] == '>' then (p - 2, Stop(p + 2, false))
      else Comment(s, p + 2, 0)
    else Comment(s, p + 1, 0)
  }

  /** One step through the text of a comment. */
  lemma CommentOne(s: string, p: nat, dashes: nat)
    requires p <= |s|
    ensures Comment(s, p, dashes) ==
      if p == |s| then (p - (if dashes > 2 then 2 else dashes), Stop(p, true))
      else if s[p] == '-' then Comment(s, p + 1, dashes + 1)
      else if s[p] == '>' && dashes >= 2 then (p - 2, Stop(p + 1, false))
      else if s[p] == '!' && dashes >= 2 then
        if p + 1 == |s| then (p + 1, Stop(p + 1, true))
        else if s[p + 1] == '>' then (p - 2, Stop(p + 2, false))
        else Comment(s, p + 2, 0)
      else Comment(s, p + 1, 0)
  {
  }

  /** A declaration: its type, the span of its data and where reading stops. */
  datatype Markup = Markup(typ: TokenType, data: Span, stop: Stop)

  function UntilCloseAngle(s: string, p: nat, typ: TokenType): (m: Markup)
    requires p <= |s|
    ensures m.typ == typ && p == m.data.start <= m.data.end <= m.stop.pos <= |s| && (m.stop.eof ==> m.stop.pos == |s|)
  {
    var i := Find(s, p, Closes('>'));
    Markup(typ, Span(p, i), if i < |s| then Stop(i + 1, false) else Stop(i, true))
  }

  const DOCTYPE := "DOCTYPE"
  const CDATA := "[CDATA["

  /** How much of `word` is at `p`; `fold` also accepts the bytes that are 32 more. */
  function MatchWord(s: string, p: nat, word: string, i: nat, fold: bool): (n: nat)
    requires p + i <= |s| && i <= |word|
    ensures i <= n <= |word| && p + n <= |s|
    decreases |word| - i
  {
    if i == |word| || p + i == |s| || (s[p + i] != word[i] && (!fold || s[p + i] != Up(word[i]))) then i
    else MatchWord(s, p, word, i + 1, fold)
  }

  /** The end of a CDATA section after `brackets` closing brackets. */
  function CdataEnd(s: string, p: nat, brackets: nat): (r: (int, Stop))
    requires p <= |s|
    ensures p <= r.1.pos <= |s| && p - brackets <= r.0 <= r.1.pos && (r.1.eof ==> r.1.pos == |s|)
    decreases |s| - p
  {
    if p == |s| then (p, Stop(p, true))
    else if s[p] == ']' then CdataEnd(s, p + 1, brackets + 1)
    else if s[p] == '>' && brackets >= 2 then (p - 2, Stop(p + 1, false))
    else CdataEnd(s, p + 1, 0)
  }

  /** What follows "<!" when it is not a comment. A word that the text breaks off in leaves an
    * empty bogus comment at the end. */
  function Declaration(s: string, p: nat, allowCdata: bool): (m: Markup)
    requires p <= |s|
    ensures p <= m.data.start <= m.data.end <= m.stop.pos <= |s| && (m.stop.eof ==> m.stop.pos == |s|)
    ensures m.typ == CommentToken || m.typ == DoctypeToken || m.typ == TextToken
  {
    var n := MatchWord(s, p, DOCTYPE, 0, true);
    var c := MatchWord(s, p, CDATA, 0, false);
    if n == |DOCTYPE| then
      var q := Find(s, p + n, NotSpace);
      if q == |s| then Markup(DoctypeToken, Span(q, q), Stop(q, true)) else UntilCloseAngle(s, q, DoctypeToken)
    else if p + n == |s| then UntilCloseAngle(s, |s|, CommentToken)
    else if allowCdata && c == |CDATA| then
      var r := CdataEnd(s, p + c, 0);
      Markup(TextToken, Span(p + c, r.0), r.1)
    else if allowCdata && p + c == |s| then UntilCloseAngle(s, |s|, CommentToken)
    else UntilCloseAngle(s, p, CommentToken)
  }

  /** What follows "<!". */
  function MarkupDeclaration(s: string, p: nat, allowCdata: bool): (m: Markup)
    requires p <= |s|
    ensures p <= m.data.start <= m.data.end <= m.stop.pos <= |s| && (m.stop.eof ==> m.stop.pos == |s|)
    ensures m.typ == CommentToken || m.typ == DoctypeToken || m.typ == TextToken
  {
    if p + 2 > |s| then Markup(CommentToken, Span(p, |s|), Stop(|s|, true))
    else if s[p] == '-' && s[p + 1] == '-' then
      var r := Comment(s, p + 2, 2);
      Markup(CommentToken, Span(p + 2, if r.0 < p + 2 then p + 2 else r.0), r.1)
    else Declaration(s, p, allowCdata)
  }

  // ----- Tokens ------------------------------------------------------------------------

  /** Does the byte after "<" make it markup? */
  predicate Opens(c: char) {
    IsLetter(c) || c == '/' || c == '!' || c == '?'
  }

  /** Where the text from `p` on ends: at markup or at the end. */
  function TextEnd(s: string, p: nat): (i: nat)
    requires p <= |s|
    ensures p <= i <= |s| && (i < |s| ==> i + 1 < |s| && s[i] == '<' && Opens(s[i + 1]))
    decreases |s| - p
  {
    if p == |s| then p
    else if s[p] == '<' && p + 1 < |s| && Opens(s[p + 1]) then p
    else TextEnd(s, p + 1)
  }

  /** What the tokenizer remembers between two tokens. */
  datatype Mode = Mode(rawTag: string, textIsRaw: bool, convertNul: bool, eof: bool)

  datatype Lexed = Lexed(typ: TokenType, data: Span, attrs: seq<(Span, Span)>, pos: nat, mode: Mode)

  /** The text of a raw element from `p` on. */
  function RawEnd(s: string, p: nat, tag: string): (r: Stop)
    requires p <= |s|
    ensures p <= r.pos <= |s| && (r.eof ==> r.pos == |s|)
  {
    if tag == "plaintext" then Stop(|s|, true)
    else if tag == SCRIPT then Script(s, p, Data)
    else RawText(s, p, tag)
  }

  /** The markup at `p`, where there is "<" and a byte that opens markup. */
  function MarkupAt(s: string, p: nat, m: Mode, allowCdata: bool): (t: Lexed)
    requires !m.eof && p + 1 < |s| && s[p] == '<' && Opens(s[p + 1])
    ensures p < t.pos <= |s| && (t.mode.eof ==> t.pos == |s|) && (t.typ == ErrorToken ==> t.mode.eof)
    ensures p <= t.data.start <= t.data.end <= t.pos
  {
    if IsLetter(s[p + 1]) then
      var tag := TagAt(s, p + 2);
      var m' := m.(eof := tag.stop.eof);
      if tag.stop.eof then Lexed(ErrorToken, tag.name, tag.attrs, tag.stop.pos, m')
      else
        var raw := RawTagOf(s[tag.name.start..tag.name.end]);
        Lexed(if s[tag.stop.pos - 2] == '/' then SelfClosingTagToken else StartTagToken,
              tag.name, tag.attrs, tag.stop.pos, m'.(rawTag := if raw != "" then raw else m.rawTag))
    else if s[p + 1] == '/' then
      if p + 2 == |s| then Lexed(TextToken, Span(p, |s|), [], |s|, m.(eof := true))
      else if s[p + 2] == '>' then Lexed(CommentToken, Span(p, p), [], p + 3, m)
      else if IsLetter(s[p + 2]) then
        var tag := TagAt(s, p + 3);
        Lexed(if tag.stop.eof then ErrorToken else EndTagToken, tag.name, [], tag.stop.pos, m.(eof := tag.stop.eof))
      else FromMarkup(UntilCloseAngle(s, p + 2, CommentToken), m)
    else if s[p + 1] == '!' then
      var d := MarkupDeclaration(s, p + 2, allowCdata);
      FromMarkup(d, m.(convertNul := m.convertNul || d.typ == TextToken))
    else FromMarkup(UntilCloseAngle(s, p + 1, CommentToken), m)
  }

  function FromMarkup(d: Markup, m: Mode): Lexed {
    Lexed(d.typ, d.data, [], d.stop.pos, m.(eof := d.stop.eof))
  }

  /** The token at `p` where the text is not raw. */
  function LexData(s: string, p: nat, m: Mode, allowCdata: bool): (t: Lexed)
    requires p <= |s| && (m.eof ==> p == |s|)
    ensures p <= t.pos <= |s| && (t.mode.eof ==> t.pos == |s|)
    ensures p <= t.data.start <= t.data.end <= t.pos
    ensures if t.typ == ErrorToken then t.mode.eof else p < t.pos
  {
    var x := TextEnd(s, p);
    if x == |s| then Lexed(if p < |s| then TextToken else ErrorToken, Span(p, |s|), [], |s|, m.(eof := true))
    else if p < x then Lexed(TextToken, Span(p, x), [], x, m)
    else MarkupAt(s, p, m, allowCdata)
  }

  lemma BangIs(s: string, p: nat, m: Mode, allowCdata: bool)
    requires !m.eof && p + 1 < |s| && s[p] == '<' && Opens(s[p + 1]) && !IsLetter(s[p + 1]) && s[p + 1] != '/'
    ensures MarkupAt(s, p, m, allowCdata) ==
      if s[p + 1] == '!' then
        var d := MarkupDeclaration(s, p + 2, allowCdata);
        FromMarkup(d, m.(convertNul := m.convertNul || d.typ == TextToken))
      else FromMarkup(UntilCloseAngle(s, p + 1, CommentToken), m)
  {
    hide TagAt, UntilCloseAngle, MarkupDeclaration, IsLetter;
  }

  /** The token at `p`; its raw text goes from `p` to the position it ends at. */
  function Lex(s: string, p: nat, m: Mode, allowCdata: bool): (t: Lexed)
    requires p <= |s| && (m.eof ==> p == |s|)
    ensures p <= t.pos <= |s| && (t.mode.eof ==> t.pos == |s|)
    ensures p <= t.data.start <= t.data.end <= t.pos
    ensures if t.typ == ErrorToken then t.mode.eof else p < t.pos
  {
    if m.eof then Lexed(ErrorToken, Span(p, p), [], p, m)
    else
      var raw := if m.rawTag == "" then Stop(p, false) else RawEnd(s, p, m.rawTag);
      var rawTag := if m.rawTag == "plaintext" then m.rawTag else "";
      if raw.pos > p then
        var isRaw := m.rawTag != "textarea" && m.rawTag != "title";
        Lexed(TextToken, Span(p, raw.pos), [], raw.pos, Mode(rawTag, isRaw, true, raw.eof))
      else LexData(s, p, Mode(rawTag, false, false, raw.eof), allowCdata)
  }

  // ----- Properties --------------------------------------------------------------------

  predicate SpansInside(attrs: seq<(Span, Span)>, lo: nat, hi: nat) {
    forall k :: 0 <= k < |attrs| ==>
      var (key, val) := attrs[k]; lo <= key.start < key.end <= val.start <= val.end <= hi
  }

  /** Keys are not empty, and keys and values lie in the tag, each value after its key. */
  lemma {:induction false} AttrsInside(s: string, p: nat)
    requires p <= |s| && (p < |s| ==> !IsSpace(s[p]))
    ensures var r := Attrs(s, p); SpansInside(r.0, p, r.1.pos)
    decreases |s| - p
  {
    if p < |s| && s[p] != '>' {
      var key := AttrKey(s, p);
      var val := AttrVal(s, key.1);
      AttrsProgress(s, p);
      AttrsInside(s, Find(s, val.1, NotSpace));
    }
  }

  lemma TagInside(s: string, p: nat)
    requires 0 < p <= |s|
    ensures var t := TagAt(s, p); SpansInside(t.attrs, p, t.stop.pos)
  {
    hide Attrs, IsSpace;
    var q := Find(s, TagName(s, p).1, NotSpace);
    if q < |s| {
      AttrsInside(s, q);
    }
  }

  /** The attributes of a start tag lie in its token. */
  lemma LexSpans(s: string, p: nat, m: Mode, allowCdata: bool)
    requires p <= |s| && (m.eof ==> p == |s|)
    ensures var t := Lex(s, p, m, allowCdata); SpansInside(t.attrs, p, t.pos)
  {
    hide TagAt, UntilCloseAngle, MarkupDeclaration, RawEnd, TextEnd, IsLetter, RawTagOf;
    if p + 1 < |s| {
      TagInside(s, p + 2);
    }
  }

  /** Does the end tag of `tag` start at `p`? */
  predicate EndTagAt(s: string, p: nat, tag: string) {
    && p + 2 + |tag| < |s| && s[p] == '<' && s[p + 1] == '/' && Ends(EndsName, s[p + 2 + |tag|])
    && forall i :: 0 <= i < |tag| ==> s[p + 2 + i] == tag[i] || s[p + 2 + i] == Down(tag[i])
  }

  lemma {:induction false} MatchedTag(s: string, p: nat, tag: string, i: nat)
    requires p + i <= |s| && i <= |tag|
    ensures var n := MatchTag(s, p, tag, i); forall k :: i <= k < n ==> s[p + k] == tag[k] || s[p + k] == Down(tag[k])
    decreases |tag| - i
  {
    if i < |tag| && p + i < |s| {
      if s[p + i] == tag[i] || s[p + i] == Down(tag[i]) {
        MatchedTag(s, p, tag, i + 1);
      }
    }
  }

  /** Raw text goes up to an end tag of its element or to the end of the text. */
  lemma {:induction false} RawTextEnds(s: string, p: nat, tag: string)
    requires p <= |s|
    ensures var r := RawText(s, p, tag); r.eof || EndTagAt(s, r.pos, tag)
    decreases |s| - p
  {
    if p < |s| && s[p] != '<' {
      RawTextEnds(s, p + 1, tag);
    } else if p + 1 < |s| && s[p + 1] != '/' {
      RawTextEnds(s, p + 2, tag);
    } else if p + 1 < |s| {
      var r := RawEndTag(s, p + 2, tag);
      MatchedTag(s, p + 2, tag, 0);
      if !r.0 && !r.1.eof {
        RawTextEnds(s, r.1.pos, tag);
      }
    }
  }

  predicate BehindIs(s: string, p: nat, q: ScriptState)
    requires Behind(q) <= p <= |s|
  {
    match Behind(q)
    case 0 => true
    case 1 => s[p - 1] == '<'
    case _ => s[p - 2] == '<' && s[p - 1] == '/'
  }

  lemma StepBehind(s: string, p: nat, q: ScriptState)
    requires Behind(q) <= p < |s| && BehindIs(s, p, q) && ReadsByte(q)
    ensures var (q', consumed) := ScriptStep(q, s[p]); BehindIs(s, if consumed then p + 1 else p, q')
  {
  }

  /** A script goes up to "</script" or to the end of the text, whatever it escapes. */
  lemma {:induction false} ScriptEnds(s: string, p: nat, q: ScriptState)
    requires Behind(q) <= p <= |s| && BehindIs(s, p, q)
    ensures var r := Script(s, p, q); r.eof || EndTagAt(s, r.pos, SCRIPT)
    decreases |s| - p, Rank(q)
  {
    hide Script, ScriptStep, EndTagAt, RawEndTag, MatchTag;
    if ReadsByte(q) {
      ScriptByte(s, p, q);
      if p < |s| {
        StepBehind(s, p, q);
        var (q', consumed) := ScriptStep(q, s[p]);
        ScriptEnds(s, if consumed then p + 1 else p, q');
      }
    } else if q == DoubleEscapeStart {
      ScriptWord(s, p);
      var n := MatchTag(s, p, SCRIPT, 0);
      if p + n < |s| {
        ScriptEnds(s, p + n, Escaped);
        ScriptEnds(s, p + n + 1, DoubleEscaped);
      }
    } else {
      EndTagEnds(s, p, q);
    }
  }

  lemma {:induction false} EndTagEnds(s: string, p: nat, q: ScriptState)
    requires Behind(q) == 2 <= p <= |s| && BehindIs(s, p, q)
    ensures var r := Script(s, p, q); r.eof || EndTagAt(s, r.pos, SCRIPT)
    decreases |s| - p, 1, 0
  {
    var r := RawEndTag(s, p, SCRIPT);
    MatchedTag(s, p, SCRIPT, 0);
    if !r.1.eof {
      if q != DoubleEscapeEnd {
        if !r.0 {
          ScriptEnds(s, r.1.pos, if q == EndTagOpen then Data else Escaped);
        }
      } else if r.0 {
        ScriptEnds(s, p + |SCRIPT| + 1, Escaped);
      } else {
        ScriptEnds(s, r.1.pos, DoubleEscaped);
      }
    }
  }

  /** Text holds no markup, and stops only for it. */
  lemma {:induction false} TextHoldsNoMarkup(s: string, p: nat, k: nat)
    requires p <= |s| && p <= k < TextEnd(s, p) && k + 1 < |s|
    ensures !(s[k] == '<' && Opens(s[k + 1]))
    decreases k - p
  {
    if k > p {
      TextHoldsNoMarkup(s, p + 1, k);
    }
  }

  // ----- All tokens --------------------------------------------------------------------

  /** A token and its raw text. */
  datatype Piece = Piece(raw: string, token: Lexed)

  /** The tokens from `p` on, up to and including the error token. */
  function Pieces(s: string, p: nat, m: Mode, allowCdata: bool): (ps: seq<Piece>)
    requires p <= |s| && (m.eof ==> p == |s|)
    ensures 1 <= |ps| <= |s| - p + 1
    decreases |s| - p, !m.eof
  {
    var t := Lex(s, p, m, allowCdata);
    [Piece(s[p..t.pos], t)] + if t.typ == ErrorToken then [] else Pieces(s, t.pos, t.mode, allowCdata)
  }

  function Concat(ps: seq<Piece>): string {
    if ps == [] then "" else ps[0].raw + Concat(ps[1..])
  }

  /** The raw texts of the tokens are the text. */
  lemma {:induction false} Lossless(s: string, p: nat, m: Mode, allowCdata: bool)
    requires p <= |s| && (m.eof ==> p == |s|)
    ensures Concat(Pieces(s, p, m, allowCdata)) == s[p..]
    decreases |s| - p, !m.eof
  {
    hide Lex;
    var t := Lex(s, p, m, allowCdata);
    var piece := Piece(s[p..t.pos], t);
    if t.typ == ErrorToken {
      assert [piece][1..] == [];
      assert Concat([piece]) == piece.raw + "";
    } else {
      var rest := Pieces(s, t.pos, t.mode, allowCdata);
      Lossless(s, t.pos, t.mode, allowCdata);
      assert ([piece] + rest)[1..] == rest;
      assert s[p..t.pos] + s[t.pos..] == s[p..];
    }
  }
}
