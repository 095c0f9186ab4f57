/** How the tags of an HTML text are written, in characters, and that reading a tag is the
  * inverse of writing it. */
module HtmlTags {
  import opened HtmlLex

  const SPACES: set<char> := {' ', '\n', '\r', '\t', '\U{000C}'}

  /** A letter of the ASCII alphabet, by its code. */
  predicate Letter(c: char) {
    65 <= c as int <= 90 || 97 <= c as int <= 122
  }

  predicate Only(t: string, cs: set<char>) {
    forall k :: 0 <= k < |t| ==> t[k] in cs
  }

  predicate Without(t: string, cs: set<char>) {
    forall k :: 0 <= k < |t| ==> t[k] !in cs
  }

  /** Nothing, or one of `cs`, and spaces. */
  predicate Gap(t: string, cs: set<char>) {
    t != "" ==> t[0] in cs && Only(t[1..], SPACES)
  }

  predicate At(s: string, p: nat, t: string) {
    p + |t| <= |s| && s[p..p + |t|] == t
  }

  // ----- How a tag is spelled ------------------------------------------------------------

  /** What follows a key: nothing, "=" with no value before ">", or "=" and a value. */
  datatype Assigned =
    | Absent
    | Empty(before: string)
    | Bare(before: string, text: string, after: string)
    | Quoted(before: string, quote: char, text: string, after: string)

  /** An attribute as it is written: the key, and a space or a slash with the spaces after it. */
  datatype Attr = Attr(key: string, gap: string, value: Assigned)

  function ValueText(v: Assigned): string {
    match v
    case Absent => ""
    case Empty(before) => "=" + before
    case Bare(before, text, after) => "=" + before + text + after
    case Quoted(before, quote, text, after) => "=" + before + [quote] + text + [quote] + after
  }

  function AttrText(a: Attr): string {
    a.key + a.gap + ValueText(a.value)
  }

  /** May `v` be written so, with the character `next` behind it? */
  predicate Assigns(v: Assigned, next: char) {
    match v
    case Absent => false
    case Empty(before) => Only(before, SPACES) && next == '>'
    case Bare(before, text, after) =>
      && Only(before, SPACES) && text != "" && text[0] !in {'"', '\''} && Without(text, SPACES + {'>'})
      && Only(after, SPACES) && (after == "" ==> next == '>')
    case Quoted(before, quote, text, after) =>
      Only(before, SPACES) && quote in {'"', '\''} && Without(text, {quote}) && Only(after, SPACES)
  }

  /** May `a` be written so, with the character `next` behind it? */
  predicate Proper(a: Attr, next: char) {
    && Without(a.key, SPACES + {'/', '=', '>'}) && next !in SPACES
    && Gap(a.gap, SPACES + {'/'})
    && (a.key == "" ==> if a.gap == "" then a.value != Absent else a.gap[0] == '/')
    && if a.value == Absent then next != '=' && (a.gap == "" ==> next == '>') else Assigns(a.value, next)
  }

  /** Attributes and the ">" that ends the tag. */
  function AttrsText(attrs: seq<Attr>): (t: string)
    ensures t != ""
  {
    if attrs == [] then ">" else AttrText(attrs[0]) + AttrsText(attrs[1..])
  }

  predicate AllProper(attrs: seq<Attr>) {
    attrs == [] || (Proper(attrs[0], AttrsText(attrs[1..])[0]) && AllProper(attrs[1..]))
  }

  /** Where the value of `a`, which starts at `p`, is. */
  function ValueSpan(a: Attr, p: nat): Span {
    var equals := p + |a.key| + |a.gap|;
    match a.value
    case Bare(before, text, after) =>
      Span(equals + 1 + |before|, equals + 1 + |before| + |text|)
    case Quoted(before, quote, text, after) =>
      Span(equals + 2 + |before|, equals + 2 + |before| + |text|)
    case _ =>
      var v := p + |a.key| + if a.gap == "" then 0 else 1;
      Span(v, v)
  }

  /** The spans of the attributes that have a key. */
  function Spans(attrs: seq<Attr>, p: nat): seq<(Span, Span)> {
    if attrs == [] then []
    else
      var a := attrs[0];
      var rest := Spans(attrs[1..], p + |AttrText(a)|);
      if a.key == "" then rest else [(Span(p, p + |a.key|), ValueSpan(a, p))] + rest
  }

  // ----- Reading what is written ----------------------------------------------------------

  lemma {:induction false} FindIs(s: string, p: nat, e: Ender, i: nat)
    requires p <= i <= |s| && (i < |s| ==> Ends(e, s[i]))
    requires forall k :: p <= k < i ==> !Ends(e, s[k])
    ensures Find(s, p, e) == i
    decreases i - p
  {
    if p < i {
      FindIs(s, p + 1, e, i);
    }
  }

  lemma AtParts(s: string, p: nat, t: string, u: string)
    ensures At(s, p, t + u) <==> At(s, p, t) && At(s, p + |t|, u)
  {
    if At(s, p, t + u) {
      assert s[p..p + |t|] == (t + u)[..|t|];
      assert s[p + |t|..p + |t + u|] == (t + u)[|t|..];
    }
    if At(s, p, t) && At(s, p + |t|, u) {
      assert s[p..p + |t + u|] == s[p..p + |t|] + s[p + |t|..p + |t| + |u|];
    }
  }

  lemma AtEach(s: string, p: nat, t: string)
    requires At(s, p, t)
    ensures forall k :: p <= k < p + |t| ==> s[k] == t[k - p]
  {
    forall k | p <= k < p + |t| ensures s[k] == t[k - p] {
      assert s[k] == s[p..p + |t|][k - p];
    }
  }

  lemma SpacesAre(c: char)
    ensures c in SPACES <==> IsSpace(c)
  {
  }

  lemma EndersAre(c: char)
    ensures Ends(NotSpace, c) <==> c !in SPACES
    ensures Ends(EndsName, c) <==> c in SPACES + {'/', '>'}
    ensures Ends(EndsKey, c) <==> c in SPACES + {'/', '=', '>'}
    ensures Ends(EndsValue, c) <==> c in SPACES + {'>'}
    ensures forall d :: Ends(Closes(d), c) <==> c in {d}
  {
    SpacesAre(c);
  }

  /** The text `t` at `p`, which holds nothing that ends `e`, goes up to such a character. */
  lemma FindsEnd(s: string, p: nat, e: Ender, t: string, stops: set<char>)
    requires forall c :: Ends(e, c) <==> c in stops
    requires At(s, p, t) && Without(t, stops) && p + |t| < |s| && s[p + |t|] in stops
    ensures Find(s, p, e) == p + |t|
  {
    hide Ends;
    AtEach(s, p, t);
    FindIs(s, p, e, p + |t|);
  }

  /** The spaces `t` at `p` are skipped. */
  lemma Skips(s: string, p: nat, t: string)
    requires At(s, p, t) && Only(t, SPACES) && p + |t| < |s| && s[p + |t|] !in SPACES
    ensures Find(s, p, NotSpace) == p + |t|
  {
    hide Ends;
    AtEach(s, p, t);
    forall k | p <= k <= p + |t| ensures Ends(NotSpace, s[k]) <==> s[k] !in SPACES {
      EndersAre(s[k]);
    }
    FindIs(s, p, NotSpace, p + |t|);
  }

  /** Skipping goes on behind the first character of a gap. */
  lemma GapSkips(s: string, p: nat, t: string, cs: set<char>)
    requires At(s, p, t) && Gap(t, cs) && p + |t| < |s| && s[p + |t|] !in SPACES
    ensures Find(s, p + if t == "" then 0 else 1, NotSpace) == p + |t|
    ensures t != "" ==> s[p] in cs
  {
    if t != "" {
      AtParts(s, p, t[..1], t[1..]);
      assert t[..1] + t[1..] == t;
      AtEach(s, p, t);
      Skips(s, p + 1, t[1..]);
    } else {
      Skips(s, p, t);
    }
  }

  lemma KeyRead(s: string, p: nat, a: Attr, next: char)
    requires Proper(a, next) && At(s, p, a.key) && At(s, p + |a.key|, a.gap)
    requires var q := p + |a.key| + |a.gap|; q < |s| && s[q] == if a.value == Absent then next else '='
    ensures AttrKey(s, p) == (p + |a.key|, p + |a.key| + if a.gap == "" then 0 else 1)
    ensures Find(s, AttrKey(s, p).1, NotSpace) == p + |a.key| + |a.gap|
  {
    hide At, Without, Only, Find, Ends;
    var i := p + |a.key|;
    GapSkips(s, i, a.gap, SPACES + {'/'});
    forall c ensures Ends(EndsKey, c) <==> c in SPACES + {'/', '=', '>'} { EndersAre(c); }
    FindsEnd(s, p, EndsKey, a.key, SPACES + {'/', '=', '>'});
  }

  lemma BareRead(s: string, q: nat, p: nat, v: Assigned, next: char)
    requires v.Bare? && p < q < |s|
    requires At(s, q, v.before) && At(s, q + |v.before|, v.text) && At(s, q + |v.before| + |v.text|, v.after)
    requires Only(v.before, SPACES) && v.text != "" && v.text[0] !in {'"', '\''} && Without(v.text, SPACES + {'>'})
    requires Only(v.after, SPACES) && (v.after == "" ==> next == '>') && next !in SPACES
    requires var e := q + |v.before| + |v.text| + |v.after|; e < |s| && s[e] == next
    ensures Value(s, q, p).0 == Span(q + |v.before|, q + |v.before| + |v.text|)
    ensures Find(s, Value(s, q, p).1, NotSpace) == q + |v.before| + |v.text| + |v.after|
  {
    hide At, Without, Only, Find, Ends;
    var start := q + |v.before|;
    var i := start + |v.text|;
    FirstIs(s, start, v.text, SPACES + {'>'});
    Skips(s, q, v.before);
    AtParts(s, start, v.text[..1], v.text[1..]);
    assert v.text[..1] + v.text[1..] == v.text;
    GapOf(v.after);
    GapSkips(s, i, v.after, SPACES);
    forall c ensures Ends(EndsValue, c) <==> c in SPACES + {'>'} { EndersAre(c); }
    Tail(v.text, SPACES + {'>'});
    FindsEnd(s, start + 1, EndsValue, v.text[1..], SPACES + {'>'});
  }

  lemma FirstIs(s: string, p: nat, t: string, cs: set<char>)
    requires At(s, p, t) && t != "" && Without(t, cs)
    ensures p < |s| && s[p] == t[0] && s[p] !in cs
  {
    AtEach(s, p, t);
  }

  lemma Tail(t: string, cs: set<char>)
    requires t != "" && Without(t, cs)
    ensures Without(t[1..], cs)
  {
  }

  lemma GapOf(t: string)
    requires Only(t, SPACES)
    ensures Gap(t, SPACES)
  {
  }

  lemma QuotedRead(s: string, q: nat, p: nat, v: Assigned, next: char)
    requires v.Quoted? && p < q < |s|
    requires var start := q + |v.before| + 1;
      && At(s, q, v.before) && start + |v.text| < |s| && s[start - 1] == v.quote && At(s, start, v.text)
      && s[start + |v.text|] == v.quote && At(s, start + |v.text| + 1, v.after)
    requires Only(v.before, SPACES) && v.quote in {'"', '\''} && Without(v.text, {v.quote}) && Only(v.after, SPACES)
    requires var e := q + |v.before| + 1 + |v.text| + 1 + |v.after|; e < |s| && s[e] == next && next !in SPACES
    ensures Value(s, q, p).0 == Span(q + |v.before| + 1, q + |v.before| + 1 + |v.text|)
    ensures Find(s, Value(s, q, p).1, NotSpace) == q + |v.before| + 1 + |v.text| + 1 + |v.after|
  {
    hide At, Without, Only, Find, Ends;
    var start := q + |v.before| + 1;
    Skips(s, q, v.before);
    forall c ensures Ends(Closes(v.quote), c) <==> c in {v.quote} { EndersAre(c); }
    FindsEnd(s, start, Closes(v.quote), v.text, {v.quote});
    Skips(s, start + |v.text| + 1, v.after);
  }

  /** The parts of a value that is written at `q`, which starts with "=". */
  lemma ValueParts(s: string, q: nat, v: Assigned)
    requires v != Absent && At(s, q, ValueText(v))
    ensures q < |s| && s[q] == '=' && At(s, q + 1, v.before)
    ensures v.Bare? ==>
      At(s, q + 1 + |v.before|, v.text) && At(s, q + 1 + |v.before| + |v.text|, v.after)
    ensures v.Quoted? ==>
      var start := q + 2 + |v.before|;
      && start + |v.text| < |s| && s[start - 1] == v.quote && At(s, start, v.text)
      && s[start + |v.text|] == v.quote && At(s, start + |v.text| + 1, v.after)
  {
    hide At;
    CharAt(s, q, '=');
    match v
    case Empty(before) =>
      AtParts(s, q, "=", before);
    case Bare(before, text, after) =>
      AtParts(s, q, "=" + before + text, after);
      AtParts(s, q, "=" + before, text);
      AtParts(s, q, "=", before);
    case Quoted(before, quote, text, after) =>
      AtParts(s, q, "=" + before + [quote] + text + [quote], after);
      AtParts(s, q, "=" + before + [quote] + text, [quote]);
      AtParts(s, q, "=" + before + [quote], text);
      AtParts(s, q, "=" + before, [quote]);
      AtParts(s, q, "=", before);
      CharAt(s, q + 1 + |before|, quote);
      CharAt(s, q + 2 + |before| + |text|, quote);
  }

  lemma CharAt(s: string, p: nat, c: char)
    ensures At(s, p, [c]) <==> p < |s| && s[p] == c
  {
    if At(s, p, [c]) {
      AtEach(s, p, [c]);
    }
  }

  lemma AssignedRead(s: string, p: nat, a: Attr, k: nat, next: char)
    requires var q := p + |a.key| + |a.gap|;
      && At(s, q, ValueText(a.value)) && q + |ValueText(a.value)| < |s| && s[q + |ValueText(a.value)|] == next
    requires Proper(a, next) && a.value != Absent && k <= p + |a.key| + |a.gap|
    requires a.value.Empty? ==> k == p + |a.key| + if a.gap == "" then 0 else 1
    ensures var q := p + |a.key| + |a.gap|;
      && s[q] == '=' && Value(s, q + 1, k).0 == ValueSpan(a, p)
      && Find(s, Value(s, q + 1, k).1, NotSpace) == q + |ValueText(a.value)|
  {
    hide Value, At, Without, Only, Find, Ends, Gap;
    var q := p + |a.key| + |a.gap|;
    ValueParts(s, q, a.value);
    match a.value
    case Empty(before) => EmptyRead(s, q + 1, k, before);
    case Bare(_, _, _) => BareRead(s, q + 1, k, a.value, next);
    case Quoted(_, _, _, _) => QuotedRead(s, q + 1, k, a.value, next);
  }

  /** An attribute that is properly written is read as its spans. */
  lemma AttrRead(s: string, p: nat, a: Attr, next: char)
    requires Proper(a, next) && At(s, p, AttrText(a)) && p + |AttrText(a)| < |s| && s[p + |AttrText(a)|] == next
    ensures var key := AttrKey(s, p); var val := AttrVal(s, key.1);
      && key.0 == p + |a.key| && val.0 == ValueSpan(a, p)
      && Find(s, val.1, NotSpace) == p + |AttrText(a)|
  {
    hide AttrKey, AttrVal, Value, At, Proper, Find, Ends;
    var q := p + |a.key| + |a.gap|;
    AtParts(s, p, a.key + a.gap, ValueText(a.value));
    AtParts(s, p, a.key, a.gap);
    if a.value == Absent {
      NextIs(a, next);
      KeyRead(s, p, a, next);
      AlreadyThere(s, q);
      NoValue(s, AttrKey(s, p).1, q);
    } else {
      ValueParts(s, q, a.value);
      KeyRead(s, p, a, next);
      var k := AttrKey(s, p).1;
      AssignedRead(s, p, a, k, next);
      WithValue(s, k, q);
    }
  }

  lemma NextIs(a: Attr, next: char)
    requires Proper(a, next)
    ensures next !in SPACES && (a.value == Absent ==> next != '=')
  {
  }

  lemma NoValue(s: string, k: nat, q: nat)
    requires k <= |s| && Find(s, k, NotSpace) == q && (q < |s| ==> s[q] != '=')
    ensures AttrVal(s, k) == (Span(k, k), q)
  {
    hide Find;
  }

  lemma WithValue(s: string, k: nat, q: nat)
    requires k <= |s| && Find(s, k, NotSpace) == q && q < |s| && s[q] == '='
    ensures AttrVal(s, k) == Value(s, q + 1, k)
  {
    hide Find, Value;
  }

  lemma AlreadyThere(s: string, q: nat)
    requires q < |s| && s[q] !in SPACES
    ensures Find(s, q, NotSpace) == q
  {
    EndersAre(s[q]);
  }

  lemma EmptyRead(s: string, q: nat, p: nat, before: string)
    requires p < q && At(s, q, before) && Only(before, SPACES) && q + |before| < |s| && s[q + |before|] == '>'
    ensures Value(s, q, p) == (Span(p, p), q + |before|) && Find(s, q + |before|, NotSpace) == q + |before|
  {
    hide At, Only, Find, Ends;
    Skips(s, q, before);
    AlreadyThere(s, q + |before|);
  }

  lemma FirstAttr(attrs: seq<Attr>, p: nat)
    requires attrs != []
    ensures var a, rest := attrs[0], attrs[1..];
      && AttrsText(attrs) == AttrText(a) + AttrsText(rest)
      && (AllProper(attrs) ==> AllProper(rest) && Proper(a, AttrsText(rest)[0]))
      && var more := Spans(rest, p + |AttrText(a)|);
         Spans(attrs, p) == if a.key == "" then more else [(Span(p, p + |a.key|), ValueSpan(a, p))] + more
  {
    hide Proper, AttrText, ValueSpan;
  }

  /** Attributes that are properly written, and the ">" behind them, are read as their spans. */
  lemma {:induction false} AttrsRead(s: string, p: nat, attrs: seq<Attr>)
    requires AllProper(attrs) && At(s, p, AttrsText(attrs))
    ensures !IsSpace(s[p]) && Attrs(s, p) == (Spans(attrs, p), Stop(p + |AttrsText(attrs)|, false))
    decreases |attrs|
  {
    hide At, AllProper, AttrsText, Spans, Proper, Attrs, AttrKey, AttrVal, AttrText, ValueSpan, Find, Ends, IsSpace;
    if attrs == [] {
      assert AttrsText([]) == ">" && Spans([], p) == [] by { NoAttrs(p); }
      CharAt(s, p, '>');
      SpacesAre('>');
      AttrsClosed(s, p);
    } else {
      FirstAttr(attrs, p);
      var a, rest := attrs[0], attrs[1..];
      var q := p + |AttrText(a)|;
      AtParts(s, p, AttrText(a), AttrsText(rest));
      FirstIs(s, q, AttrsText(rest), {});
      AttrRead(s, p, a, s[q]);
      AttrsRead(s, q, rest);
      NotClosed(s, p, a, s[q]);
      SpacesAre(s[p]);
      AttrsOne(s, p);
      if a.key == "" {
        assert [] + Attrs(s, q).0 == Attrs(s, q).0;
      }
    }
  }

  lemma NoAttrs(p: nat)
    ensures AttrsText([]) == ">" && Spans([], p) == []
  {
  }

  lemma AttrsClosed(s: string, p: nat)
    requires p < |s| && s[p] == '>' && !IsSpace(s[p])
    ensures Attrs(s, p) == ([], Stop(p + 1, false))
  {
  }

  lemma NotClosed(s: string, p: nat, a: Attr, next: char)
    requires Proper(a, next) && At(s, p, AttrText(a)) && p + |AttrText(a)| < |s|
    ensures s[p] != '>' && s[p] !in SPACES && AttrText(a) != ""
  {
    hide At, Only;
    AtParts(s, p, a.key + a.gap, ValueText(a.value));
    AtParts(s, p, a.key, a.gap);
    if a.key != "" {
      FirstIs(s, p, a.key, SPACES + {'/', '=', '>'});
    } else if a.gap != "" {
      FirstIs(s, p, a.gap, {});
    } else {
      hide Proper;
      ValueParts(s, p, a.value);
    }
  }

  // ----- Everything read is so written ----------------------------------------------------

  /** What a search passes over holds nothing it searches for. */
  lemma Passed(s: string, p: nat, e: Ender, stops: set<char>)
    requires p <= |s| && forall c :: Ends(e, c) <==> c in stops
    ensures var i := Find(s, p, e);
      Without(s[p..i], stops) && At(s, p, s[p..i]) && (i < |s| ==> s[i] in stops)
  {
    hide Ends, Find;
    var i := Find(s, p, e);
    forall k | 0 <= k < i - p ensures s[p..i][k] !in stops {
      FindsFirst(s, p, e, p + k);
    }
  }

  lemma PassedSpaces(s: string, p: nat)
    requires p <= |s|
    ensures var i := Find(s, p, NotSpace); Only(s[p..i], SPACES) && (i < |s| ==> s[i] !in SPACES)
  {
    hide Ends, Find;
    var i := Find(s, p, NotSpace);
    forall k | 0 <= k < i - p ensures s[p..i][k] in SPACES {
      FindsFirst(s, p, NotSpace, p + k);
      EndersAre(s[p + k]);
    }
    if i < |s| {
      EndersAre(s[i]);
    }
  }

  /** The value that is assigned by the "=" before `q`; the next attribute starts at `e`. */
  function AssignedAt(s: string, q: nat, e: nat): Assigned
    requires q <= e <= |s|
  {
    var v := Find(s, q, NotSpace);
    if v >= e then Empty(s[q..e])
    else if s[v] == '"' || s[v] == '\'' then
      var i := Find(s, v + 1, Closes(s[v]));
      if i < e then Quoted(s[q..v], s[v], s[v + 1..i], s[i + 1..e]) else Absent
    else
      var i := Find(s, v + 1, EndsValue);
      if i <= e then Bare(s[q..v], s[v..i], s[i..e]) else Absent
  }

  /** The attribute at `p`; the next one starts at `e`. */
  function AttrAt(s: string, p: nat, e: nat): Attr
    requires p <= e <= |s|
  {
    var k := AttrKey(s, p);
    var q := Find(s, k.1, NotSpace);
    if q < e then Attr(s[p..k.0], s[k.0..q], AssignedAt(s, q + 1, e))
    else if k.0 <= e then Attr(s[p..k.0], s[k.0..e], Absent)
    else Attr("", "", Absent)
  }

  lemma GapIs(t: string, cs: set<char>)
    requires t != "" && t[0] in cs && Only(t[1..], SPACES)
    ensures Gap(t, cs)
  {
  }

  /** What ends a key is consumed unless it is "=" or ">". */
  lemma KeyEnd(s: string, p: nat)
    requires p <= |s|
    ensures var k := AttrKey(s, p);
      && k.0 == Find(s, p, EndsKey)
      && if k.0 < |s| && s[k.0] !in {'=', '>'} then k.1 == k.0 + 1 else k.1 == k.0
  {
    hide Find, Ends;
  }

  lemma KeyWritten(s: string, p: nat)
    requires p <= |s|
    ensures var k := AttrKey(s, p);
      var q := Find(s, k.1, NotSpace);
      && p <= k.0 <= q <= |s| && Without(s[p..k.0], SPACES + {'/', '=', '>'})
      && (q < |s| ==> Gap(s[k.0..q], SPACES + {'/'}) && s[q] !in SPACES)
      && (k.0 == q < |s| ==> s[q] == '=' || s[q] == '>')
  {
    hide AttrKey, Find, Ends, Gap, Without, Only, SPACES;
    var k := AttrKey(s, p);
    KeyEnd(s, p);
    var q := Find(s, k.1, NotSpace);
    forall c ensures Ends(EndsKey, c) <==> c in SPACES + {'/', '=', '>'} { EndersAre(c); }
    Passed(s, p, EndsKey, SPACES + {'/', '=', '>'});
    PassedSpaces(s, k.1);
    if k.0 < k.1 {
      var gap := s[k.0..q];
      assert gap[1..] == s[k.1..q];
      GapIs(gap, SPACES + {'/'});
    } else if k.0 < |s| {
      EndersAre(s[k.0]);
      FindStays(s, k.0);
    }
  }

  lemma FindStays(s: string, q: nat)
    requires q < |s| && s[q] in {'=', '>'}
    ensures Find(s, q, NotSpace) == q && s[q..q] == "" && Gap(s[q..q], SPACES + {'/'})
  {
    AlreadyThere(s, q);
  }

  lemma EmptyWritten(s: string, q: nat, e: nat)
    requires 0 < q <= e < |s| && s[q - 1] == '=' && Find(s, q, NotSpace) == e && s[e] == '>'
    ensures var v := AssignedAt(s, q, e);
      Assigns(v, s[e]) && ValueText(v) == s[q - 1..e]
  {
    hide Find, Ends;
    PassedSpaces(s, q);
  }

  lemma QuotedWritten(s: string, q: nat, e: nat)
    requires q <= |s|
    requires var v := Find(s, q, NotSpace);
      && 0 < q <= v < |s| && s[q - 1] == '=' && (s[v] == '"' || s[v] == '\'')
      && var i := Find(s, v + 1, Closes(s[v])); i < |s| && e == Find(s, i + 1, NotSpace) && e < |s|
    ensures var v := AssignedAt(s, q, e);
      Assigns(v, s[e]) && ValueText(v) == s[q - 1..e]
  {
    hide Find, Ends, Only, Without, SPACES;
    var v := Find(s, q, NotSpace);
    var i := Find(s, v + 1, Closes(s[v]));
    PassedSpaces(s, q);
    forall c ensures Ends(Closes(s[v]), c) <==> c in {s[v]} { EndersAre(c); }
    Passed(s, v + 1, Closes(s[v]), {s[v]});
    PassedSpaces(s, i + 1);
    assert s[q - 1..e] == "=" + s[q..v] + [s[v]] + s[v + 1..i] + [s[v]] + s[i + 1..e];
  }

  lemma BareWritten(s: string, q: nat, e: nat)
    requires q <= |s|
    requires var v := Find(s, q, NotSpace);
      && 0 < q <= v < |s| && s[q - 1] == '=' && s[v] !in {'"', '\'', '>'}
      && var i := Find(s, v + 1, EndsValue);
         i < |s| && e == Find(s, if s[i] != '>' then i + 1 else i, NotSpace) && e < |s|
    ensures var v := AssignedAt(s, q, e);
      Assigns(v, s[e]) && ValueText(v) == s[q - 1..e]
  {
    hide Find, Ends, Only, Without, SPACES;
    var v := Find(s, q, NotSpace);
    var i := Find(s, v + 1, EndsValue);
    PassedSpaces(s, q);
    forall c ensures Ends(EndsValue, c) <==> c in SPACES + {'>'} { EndersAre(c); }
    Passed(s, v + 1, EndsValue, SPACES + {'>'});
    OneMore(s, v, i, SPACES + {'>'});
    if s[i] != '>' {
      PassedSpaces(s, i + 1);
      OneSpace(s, i, e);
    } else {
      FindStays(s, i);
      OneSpace(s, i, i);
    }
    assert s[q - 1..e] == "=" + s[q..v] + s[v..i] + s[i..e];
  }

  lemma OneMore(s: string, v: nat, i: nat, cs: set<char>)
    requires v < i <= |s| && s[v] !in cs && Without(s[v + 1..i], cs)
    ensures Without(s[v..i], cs)
  {
    assert s[v..i][1..] == s[v + 1..i];
  }

  lemma OneSpace(s: string, i: nat, e: nat)
    requires i <= e <= |s| && (i < e ==> s[i] in SPACES && Only(s[i + 1..e], SPACES))
    ensures Only(s[i..e], SPACES)
  {
    if i < e {
      assert s[i..e][1..] == s[i + 1..e];
    }
  }

  lemma ValueWritten(s: string, q: nat, p: nat)
    requires p < q <= |s| && s[q - 1] == '='
    ensures var e := Find(s, Value(s, q, p).1, NotSpace);
      e < |s| ==> var v := AssignedAt(s, q, e); Assigns(v, s[e]) && ValueText(v) == s[q - 1..e]
  {
    hide Find, Ends, AssignedAt, Assigns, ValueText, SPACES;
    var e := Find(s, Value(s, q, p).1, NotSpace);
    var v := Find(s, q, NotSpace);
    AtEnd(s);
    if e < |s| {
      if s[v] == '>' {
        FindStays(s, v);
        EmptyWritten(s, q, e);
      } else if s[v] == '"' || s[v] == '\'' {
        QuotedWritten(s, q, e);
      } else {
        BareWritten(s, q, e);
      }
    }
  }

  lemma AtEnd(s: string)
    ensures Find(s, |s|, NotSpace) == |s|
  {
  }

  lemma NoSpaceThere(s: string, p: nat)
    requires p <= |s|
    ensures var e := Find(s, p, NotSpace); e < |s| ==> s[e] !in SPACES
  {
    PassedSpaces(s, p);
  }

  /** What is read as an attribute is one that is properly written. */
  lemma AttrWritten(s: string, p: nat)
    requires p < |s| && !IsSpace(s[p]) && s[p] != '>'
    ensures var e := Find(s, AttrVal(s, AttrKey(s, p).1).1, NotSpace);
      e < |s| ==> p < e && Proper(AttrAt(s, p, e), s[e]) && AttrText(AttrAt(s, p, e)) == s[p..e]
  {
    hide *;
    AttrsProgress(s, p);
    SpacesAre(s[p]);
    var k := AttrKey(s, p);
    var e := Find(s, AttrVal(s, k.1).1, NotSpace);
    if e < |s| {
      NoSpaceThere(s, AttrVal(s, k.1).1);
      KeyWritten(s, p);
      KeyEnd(s, p);
      var q := Find(s, k.1, NotSpace);
      if q < |s| && s[q] == '=' {
        WithValue(s, k.1, q);
        ValueWritten(s, q + 1, k.1);
        AssignedWritten(s, p, q, e);
      } else {
        NoValue(s, k.1, q);
        AtEnd(s);
        AlreadyThere(s, q);
        AbsentWritten(s, p, e);
      }
    }
  }

  lemma AssignedWritten(s: string, p: nat, q: nat, e: nat)
    requires p <= e < |s| && s[p] !in SPACES && s[e] !in SPACES
    requires var k := AttrKey(s, p);
      && q == Find(s, k.1, NotSpace) && k.0 <= q < e && Without(s[p..k.0], SPACES + {'/', '=', '>'})
      && Gap(s[k.0..q], SPACES + {'/'})
    requires var v := AssignedAt(s, q + 1, e);
      Assigns(v, s[e]) && ValueText(v) == s[q..e]
    ensures Proper(AttrAt(s, p, e), s[e]) && AttrText(AttrAt(s, p, e)) == s[p..e]
  {
    hide Find, AttrKey, Assigns, AssignedAt, ValueText, SPACES, Gap, Without;
    var k := AttrKey(s, p);
    GapFirst(s[k.0..q], SPACES + {'/'});
    AssignsValue(AssignedAt(s, q + 1, e), s[e]);
    assert s[p..e] == s[p..k.0] + s[k.0..q] + s[q..e];
  }

  lemma AbsentWritten(s: string, p: nat, e: nat)
    requires p < e < |s| && s[p] !in SPACES && s[e] !in SPACES + {'='} && s[p] != '>'
    requires var k := AttrKey(s, p);
      && e == Find(s, k.1, NotSpace) && k.0 <= e && Without(s[p..k.0], SPACES + {'/', '=', '>'})
      && Gap(s[k.0..e], SPACES + {'/'}) && (k.0 == e ==> s[e] == '>')
    ensures Proper(AttrAt(s, p, e), s[e]) && AttrText(AttrAt(s, p, e)) == s[p..e]
  {
    hide Find, AttrKey, SPACES, Gap, Without;
    var k := AttrKey(s, p);
    GapFirst(s[k.0..e], SPACES + {'/'});
    assert s[p..e] == s[p..k.0] + s[k.0..e] + "";
  }

  lemma AssignsValue(v: Assigned, next: char)
    requires Assigns(v, next)
    ensures v != Absent
  {
  }

  lemma GapFirst(t: string, cs: set<char>)
    requires Gap(t, cs)
    ensures t != "" ==> t[0] in cs
  {
  }

  /** What is read as attributes up to a ">" is properly written. */
  lemma {:induction false} AttrsWritten(s: string, p: nat) returns (attrs: seq<Attr>)
    requires p <= |s| && (p < |s| ==> !IsSpace(s[p])) && !Attrs(s, p).1.eof
    ensures AllProper(attrs) && At(s, p, AttrsText(attrs))
    decreases |s| - p
  {
    hide *;
    AttrsEnd(s, p);
    if s[p] == '>' {
      attrs := [];
      NoAttrs(p);
      AllProperIs([]);
      CharAt(s, p, '>');
    } else {
      AttrsProgress(s, p);
      AttrsOne(s, p);
      AttrWritten(s, p);
      var e := Find(s, AttrVal(s, AttrKey(s, p).1).1, NotSpace);
      var rest := AttrsWritten(s, e);
      var a := AttrAt(s, p, e);
      attrs := [a] + rest;
      assert attrs[1..] == rest;
      AttrsEnd(s, e);
      FirstIs(s, e, AttrsText(rest), {});
      FirstAttr(attrs, p);
      AllProperIs(attrs);
      HereAt(s, p, e);
      AtParts(s, p, AttrText(a), AttrsText(rest));
    }
  }

  lemma AttrsEnd(s: string, p: nat)
    requires p <= |s| && (p < |s| ==> !IsSpace(s[p])) && !Attrs(s, p).1.eof
    ensures p < |s|
  {
  }

  lemma HereAt(s: string, p: nat, e: nat)
    requires p <= e <= |s|
    ensures At(s, p, s[p..e])
  {
  }

  lemma AllProperIs(attrs: seq<Attr>)
    ensures AllProper(attrs) <==>
      attrs == [] || (Proper(attrs[0], AttrsText(attrs[1..])[0]) && AllProper(attrs[1..]))
  {
    hide Proper, AttrsText;
  }

  // ----- Whole tags -----------------------------------------------------------------------

  function TagText(slash: string, name: string, gap: string, attrs: seq<Attr>): string {
    "<" + slash + name + gap + AttrsText(attrs)
  }

  /** May a tag be written with this name, these spaces behind it and these attributes? */
  ghost predicate ProperTag(name: string, gap: string, attrs: seq<Attr>) {
    && name != "" && Letter(name[0]) && Without(name, SPACES + {'/', '>'})
    && Only(gap, SPACES) && (gap == "" ==> AttrsText(attrs)[0] in {'/', '>'})
    && AllProper(attrs)
  }

  lemma TagParts(s: string, p: nat, slash: string, name: string, gap: string, attrs: seq<Attr>)
    ensures At(s, p, TagText(slash, name, gap, attrs)) <==>
      var q := p + 1 + |slash|;
      && At(s, p, "<" + slash) && At(s, q, name) && At(s, q + |name|, gap)
      && At(s, q + |name| + |gap|, AttrsText(attrs))
  {
    hide At, AttrsText;
    AtParts(s, p, "<" + slash + name + gap, AttrsText(attrs));
    AtParts(s, p, "<" + slash + name, gap);
    AtParts(s, p, "<" + slash, name);
  }

  /** A tag that is properly written is read with its name and the spans of its attributes. */
  lemma TagRead(s: string, q: nat, name: string, gap: string, attrs: seq<Attr>)
    requires ProperTag(name, gap, attrs)
    requires At(s, q, name) && At(s, q + |name|, gap) && At(s, q + |name| + |gap|, AttrsText(attrs))
    ensures q < |s| && IsLetter(s[q])
    ensures var r := q + |name| + |gap|;
      TagAt(s, q + 1) == Tag(Span(q, q + |name|), Spans(attrs, r), Stop(r + |AttrsText(attrs)|, false))
  {
    hide *;
    TagProper(name, gap, attrs);
    FirstIs(s, q, name, SPACES + {'/', '>'});
    LettersAre(name[0]);
    var n, r := q + |name|, q + |name| + |gap|;
    AttrsRead(s, r, attrs);
    FirstIs(s, r, AttrsText(attrs), {});
    NameRead(s, q, name, gap);
    TagIs(s, q + 1, n, r);
  }

  lemma TagProper(name: string, gap: string, attrs: seq<Attr>)
    requires ProperTag(name, gap, attrs)
    ensures name != "" && Letter(name[0]) && Without(name, SPACES + {'/', '>'})
    ensures Only(gap, SPACES) && (gap == "" ==> AttrsText(attrs)[0] in {'/', '>'}) && AllProper(attrs)
  {
    hide Letter, Without, SPACES, Only, AttrsText, AllProper;
  }

  lemma LettersAre(c: char)
    ensures Letter(c) <==> IsLetter(c)
  {
  }

  lemma NameRead(s: string, q: nat, name: string, gap: string)
    requires name != "" && At(s, q, name) && At(s, q + |name|, gap) && Without(name, SPACES + {'/', '>'})
    requires Only(gap, SPACES)
    requires var r := q + |name| + |gap|;
      r < |s| && !IsSpace(s[r]) && (gap == "" ==> s[r] in {'/', '>'})
    ensures var t := TagName(s, q + 1);
      t.0 == q + |name| && Find(s, t.1, NotSpace) == q + |name| + |gap|
  {
    hide *;
    var n, r := q + |name|, q + |name| + |gap|;
    SpacesAre(s[r]);
    GapOf(gap);
    GapSkips(s, n, gap, SPACES);
    AtParts(s, q, name[..1], name[1..]);
    assert name[..1] + name[1..] == name;
    Tail(name, SPACES + {'/', '>'});
    forall c ensures Ends(EndsName, c) <==> c in SPACES + {'/', '>'} { EndersAre(c); }
    FindsEnd(s, q + 1, EndsName, name[1..], SPACES + {'/', '>'});
    NameIs(s, q + 1, n);
    SpacesAre(s[n]);
  }

  lemma NameIs(s: string, p: nat, n: nat)
    requires p <= |s| && Find(s, p, EndsName) == n
    ensures TagName(s, p) == (n, if n < |s| && IsSpace(s[n]) then n + 1 else n)
  {
    hide Find, IsSpace;
  }

  lemma TagIs(s: string, p: nat, n: nat, r: nat)
    requires 0 < p <= |s| && TagName(s, p).0 == n && Find(s, TagName(s, p).1, NotSpace) == r
    ensures r < |s| ==> !IsSpace(s[r])
    ensures TagAt(s, p) ==
      if r == |s| then Tag(Span(p - 1, n), [], Stop(r, true))
      else Tag(Span(p - 1, n), Attrs(s, r).0, Attrs(s, r).1)
  {
    hide TagName, Find, Attrs, IsSpace;
  }

  /** What is read as a tag is one that is properly written. */
  lemma TagWritten(s: string, q: nat) returns (name: string, gap: string, attrs: seq<Attr>)
    requires q < |s| && IsLetter(s[q]) && !TagAt(s, q + 1).stop.eof
    ensures ProperTag(name, gap, attrs)
    ensures At(s, q, name) && At(s, q + |name|, gap) && At(s, q + |name| + |gap|, AttrsText(attrs))
  {
    hide *;
    var t := TagName(s, q + 1);
    var n := Find(s, q + 1, EndsName);
    NameIs(s, q + 1, n);
    var r := Find(s, t.1, NotSpace);
    TagIs(s, q + 1, n, r);
    name, gap := s[q..n], s[n..r];
    attrs := AttrsWritten(s, r);
    AttrsEnd(s, r);
    HereAt(s, q, n);
    HereAt(s, n, r);
    NameWritten(s, q);
    FirstIs(s, r, AttrsText(attrs), {});
    ProperIs(name, gap, attrs);
  }

  lemma ProperIs(name: string, gap: string, attrs: seq<Attr>)
    requires name != "" && Letter(name[0]) && Without(name, SPACES + {'/', '>'})
    requires Only(gap, SPACES) && (gap == "" ==> AttrsText(attrs)[0] in {'/', '>'}) && AllProper(attrs)
    ensures ProperTag(name, gap, attrs)
  {
    hide Letter, Without, SPACES, Only, AttrsText, AllProper;
  }

  lemma NameWritten(s: string, q: nat)
    requires q < |s| && IsLetter(s[q])
    ensures var t := TagName(s, q + 1);
      var r := Find(s, t.1, NotSpace);
      && q < t.0 <= r <= |s| && Without(s[q..t.0], SPACES + {'/', '>'}) && Letter(s[q])
      && (r < |s| ==> Only(s[t.0..r], SPACES) && (t.0 == r ==> s[r] in {'/', '>'}))
  {
    hide *;
    var n := Find(s, q + 1, EndsName);
    NameIs(s, q + 1, n);
    LettersAre(s[q]);
    forall c ensures Ends(EndsName, c) <==> c in SPACES + {'/', '>'} { EndersAre(c); }
    Passed(s, q + 1, EndsName, SPACES + {'/', '>'});
    LetterEndsNothing(s[q]);
    OneMore(s, q, n, SPACES + {'/', '>'});
    var t := TagName(s, q + 1);
    PassedSpaces(s, t.1);
    var r := Find(s, t.1, NotSpace);
    if n < |s| {
      SpacesAre(s[n]);
      if s[n] !in SPACES {
        AlreadyThere(s, n);
      }
      OneSpace(s, n, r);
    }
  }

  lemma LetterEndsNothing(c: char)
    requires Letter(c)
    ensures c !in SPACES + {'/', '>'}
  {
  }

  // ----- What the spans hold ----------------------------------------------------------------

  /** A key holds no space, "/", "=" or ">". A value that is not empty stands behind the "=" that
    * follows its key, up to spaces: in quotes that it does not hold, or without spaces and ">". */
  ghost predicate Spells(s: string, key: Span, val: Span) {
    && 0 <= key.start < key.end <= val.start <= val.end <= |s|
    && Without(s[key.start..key.end], SPACES + {'/', '=', '>'})
    && (val.start < val.end ==> exists e: nat, v: nat :: SpellsValue(s, key.end, e, v, val))
  }

  ghost predicate SpellsValue(s: string, k: int, e: nat, v: nat, val: Span) {
    && 0 <= k <= e < v <= val.start <= val.end <= |s|
    && Gap(s[k..e], SPACES + {'/'}) && s[e] == '=' && Only(s[e + 1..v], SPACES)
    && if v == val.start then Without(s[v..val.end], SPACES + {'>'})
       else
         && v + 1 == val.start && val.end < |s| && s[v] in {'"', '\''} && s[val.end] == s[v]
         && Without(s[val.start..val.end], {s[v]})
  }

  lemma AtIs(s: string, p: nat, t: string)
    requires At(s, p, t)
    ensures p + |t| <= |s| && s[p..p + |t|] == t
  {
  }

  lemma AttrSpells(s: string, p: nat, a: Attr, next: char)
    requires Proper(a, next) && At(s, p, AttrText(a)) && a.key != ""
    ensures Spells(s, Span(p, p + |a.key|), ValueSpan(a, p))
  {
    hide At, Without, Only, Gap, SPACES;
    var k := p + |a.key|;
    var e := k + |a.gap|;
    AtParts(s, p, a.key + a.gap, ValueText(a.value));
    AtParts(s, p, a.key, a.gap);
    AtIs(s, p, a.key);
    AtIs(s, k, a.gap);
    AtIs(s, e, ValueText(a.value));
    if a.value != Absent {
      ValueParts(s, e, a.value);
      var v := e + 1 + |a.value.before|;
      AtIs(s, e + 1, a.value.before);
      if a.value.Bare? {
        AtIs(s, v, a.value.text);
        assert SpellsValue(s, k, e, v, ValueSpan(a, p));
      } else if a.value.Quoted? {
        AtIs(s, v + 1, a.value.text);
        assert SpellsValue(s, k, e, v, ValueSpan(a, p));
      }
    }
  }

  /** The spans of attributes that are properly written hold what they should. */
  lemma {:induction false} SpansSpell(s: string, p: nat, attrs: seq<Attr>)
    requires AllProper(attrs) && At(s, p, AttrsText(attrs))
    ensures forall x :: x in Spans(attrs, p) ==> Spells(s, x.0, x.1)
    decreases |attrs|
  {
    hide *;
    if attrs == [] {
      NoAttrs(p);
    } else {
      FirstAttr(attrs, p);
      var a, rest := attrs[0], attrs[1..];
      AtParts(s, p, AttrText(a), AttrsText(rest));
      SpansSpell(s, p + |AttrText(a)|, rest);
      if a.key != "" {
        AttrSpells(s, p, a, AttrsText(rest)[0]);
      }
    }
  }
}
