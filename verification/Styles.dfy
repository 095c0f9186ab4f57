/** Rules that everything the emitter writes keeps to, read off the log of writes alone.
  *
  * The nesting of flow collections is counted by the brackets written, a key without an indicator
  * is what comes directly before ":", and the scalars of the events are those written, in order.
  * `StreamKeeps` proves the rules of the recursive printer, for every whole stream. */
module YamlStyles {
  import opened Options
  import opened YamlEvents
  import opened YamlLayout
  import opened YamlReadback

  // ----- Brackets ----------------------------------------------------------------------

  predicate IsOpening(w: Write) {
    w.Indicator? && (w.text == "[" || w.text == "{")
  }

  predicate IsClosing(w: Write) {
    w.Indicator? && (w.text == "]" || w.text == "}")
  }

  /** How many flow collections are open behind these writes. */
  function Depth(ws: seq<Write>): int {
    if ws == [] then 0
    else
      var last := ws[|ws| - 1];
      Depth(ws[..|ws| - 1]) + if IsOpening(last) then 1 else if IsClosing(last) then -1 else 0
  }

  function Brackets(ws: seq<Write>): seq<string> {
    if ws == [] then []
    else
      var before, last := Brackets(ws[..|ws| - 1]), ws[|ws| - 1];
      if IsOpening(last) || IsClosing(last) then before + [last.text] else before
  }

  predicate IsStart(k: EventKind) {
    k == SequenceStart || k == MappingStart
  }

  predicate IsEnd(k: EventKind) {
    k == SequenceEnd || k == MappingEnd
  }

  /** A collection is written in flow style inside another such, if that is asked for, or if it is empty. */
  predicate GoesFlow(n: Settings, es: seq<Event>, p: nat, depth: nat)
    requires p < |es|
  {
    || depth > 0 || n.canonical || es[p].style == Flow
    || (p + 1 < |es| && es[p].kind == SequenceStart && es[p + 1].kind == SequenceEnd)
    || (p + 1 < |es| && es[p].kind == MappingStart && es[p + 1].kind == MappingEnd)
  }

  /** How many flow collections are open behind the first `p` events. */
  function FlowDepth(n: Settings, es: seq<Event>, p: nat): nat
    requires p <= |es|
  {
    if p == 0 then 0
    else
      var d := FlowDepth(n, es, p - 1);
      if IsStart(es[p - 1].kind) then if GoesFlow(n, es, p - 1, d) then d + 1 else 0
      else if IsEnd(es[p - 1].kind) then if d > 0 then d - 1 else 0
      else d
  }

  /** The brackets that the first `p` events ask for. */
  function BracketsFor(n: Settings, es: seq<Event>, p: nat): seq<string>
    requires p <= |es|
  {
    if p == 0 then []
    else
      var before, d, k := BracketsFor(n, es, p - 1), FlowDepth(n, es, p - 1), es[p - 1].kind;
      if IsStart(k) && GoesFlow(n, es, p - 1, d) then before + [if k == SequenceStart then "[" else "{"]
      else if IsEnd(k) && d > 0 then before + [if k == SequenceEnd then "]" else "}"]
      else before
  }

  // ----- Scalars -----------------------------------------------------------------------

  /** A scalar that was written: with the tag directly before it, and inside how many flow collections. */
  datatype Text = Text(write: Write, tag: Option<Write>, depth: int)

  function TagBefore(ws: seq<Write>): Option<Write> {
    if ws != [] && ws[|ws| - 1].TagText? then Some(ws[|ws| - 1]) else None
  }

  function Texts(ws: seq<Write>): seq<Text> {
    if ws == [] then []
    else
      var before, last := ws[..|ws| - 1], ws[|ws| - 1];
      if last.ScalarText? then Texts(before) + [Text(last, TagBefore(before), Depth(before))] else Texts(before)
  }

  function Scalars(es: seq<Event>): seq<Event> {
    if es == [] then []
    else
      var before, last := Scalars(es[..|es| - 1]), es[|es| - 1];
      if last.kind == Scalar then before + [last] else before
  }

  /** The tag of the event must be written. */
  predicate NeedsTag(n: Settings, e: Event) {
    e.tag != "" && (n.canonical || (!e.implicit && !e.quotedImplicit))
  }

  /** A style that a scalar may have, inside so many flow collections, as a simple key or not. */
  predicate Permitted(n: Settings, e: Event, style: Style, depth: int, key: bool) {
    var data := n.analysis(e.value);
    match style
    case Plain =>
      && !n.canonical && !(key && data.multiline)
      && (depth > 0 ==> data.flowPlainAllowed) && (depth == 0 ==> data.blockPlainAllowed)
      && (e.value == "" ==> depth == 0 && !key)
      && (e.implicit || NeedsTag(n, e))
    case SingleQuoted => !n.canonical && !(key && data.multiline) && data.singleQuotedAllowed
    case Literal | Folded => !n.canonical && data.blockAllowed && depth == 0 && !key
    case _ => true
  }

  /** The style that the event asks for, or the nearest one that is permitted. */
  predicate Chosen(n: Settings, e: Event, style: Style, depth: int, key: bool) {
    var asked := if e.style == AnyStyle then Plain else e.style;
    && Permitted(n, e, style, depth, key)
    && (n.canonical || (key && n.analysis(e.value).multiline) ==> style == DoubleQuoted)
    && (!n.canonical && !(key && n.analysis(e.value).multiline) ==>
          && (Permitted(n, e, asked, depth, key) ==> style == asked)
          && (!Permitted(n, e, asked, depth, key) ==>
                style ==
                  if asked == Plain && Permitted(n, e, SingleQuoted, depth, key) then SingleQuoted else DoubleQuoted))
  }

  /** The scalar of the event `e` was written as `t`: its value, in the right style, with a tag exactly if it
    * needs one, and with "!" if it is a string only because of its quotes. */
  predicate Suits(n: Settings, e: Event, t: Text) {
    && t.write.ScalarText? && t.write.value == e.value
    && Chosen(n, e, t.write.style, t.depth, !t.write.breaks)
    && (t.tag == None <==> !NeedsTag(n, e) && (t.write.style == Plain || e.quotedImplicit))
    && (t.tag != None && !NeedsTag(n, e) ==> t.tag == Some(TagText("!", "")))
  }

  predicate Suited(n: Settings, es: seq<Event>, ts: seq<Text>) {
    |es| == |ts| && forall k :: 0 <= k < |es| ==> Suits(n, es[k], ts[k])
  }

  // ----- Documents ---------------------------------------------------------------------

  const DASHES := Spaced("---")
  const YAML := Spaced("%YAML")
  const TAG := Spaced("%TAG")

  /** The indicators of directives and documents, and the directives themselves. */
  function Marks(ws: seq<Write>): seq<Write> {
    if ws == [] then []
    else
      var before, last := ws[..|ws| - 1], ws[|ws| - 1];
      if last == DASHES || last == YAML || last == TAG
        || (last.TagText? && before != [] && before[|before| - 1] == TAG) then
        Marks(before) + [last]
      else Marks(before)
  }

  /** The first document does without "---" if it may, and if nothing else asks for it. */
  function MarksOf(n: Settings, e: Event, first: bool): seq<Write> {
    (if e.version != None then [YAML] else [])
    + Declared(e.tagDirectives)
    + if first && e.implicit && !n.canonical && e.version == None && e.tagDirectives == [] then [] else [DASHES]
  }

  function Declared(ds: seq<TagDirective>): seq<Write> {
    if ds == [] then []
    else Declared(ds[..|ds| - 1]) + [TAG, TagText(ds[|ds| - 1].handle, ds[|ds| - 1].prefix)]
  }

  /** The marks that the first `p` events ask for. */
  function MarksFor(n: Settings, es: seq<Event>, p: nat): seq<Write>
    requires p <= |es|
  {
    if p == 0 then []
    else
      var before := MarksFor(n, es, p - 1);
      if es[p - 1].kind == DocumentStart then before + MarksOf(n, es[p - 1], p == 2) else before
  }

  // ----- Keys --------------------------------------------------------------------------

  /** A node of a few writes: where it starts, how long it is, and whether its tag is "!" alone. */
  datatype Short = Short(start: nat, size: nat, mark: bool)

  /** The node that ends with the last write: a scalar, an alias or an empty collection. */
  function ShortNode(ws: seq<Write>): Option<Short> {
    var n := |ws|;
    if n > 0 && ws[n - 1].ScalarText? then Some(WithTag(ws[..n - 1], |ws[n - 1].value|))
    else if n > 1 && ws[n - 1].Anchor? && ws[n - 1].alias then Some(Short(n - 2, |ws[n - 1].name|, false))
    else if n > 1 && IsClosing(ws[n - 1]) && IsOpening(ws[n - 2]) then Some(WithTag(ws[..n - 2], 0))
    else None
  }

  function WithTag(ws: seq<Write>, size: nat): Short {
    var n := |ws|;
    if n > 0 && ws[n - 1].TagText? then
      WithAnchor(ws[..n - 1], size + |ws[n - 1].handle| + |ws[n - 1].suffix|, ws[n - 1] == TagText("!", ""))
    else WithAnchor(ws, size, false)
  }

  function WithAnchor(ws: seq<Write>, size: nat, mark: bool): Short {
    var n := |ws|;
    if n > 1 && ws[n - 1].Anchor? && !ws[n - 1].alias then Short(n - 2, size + |ws[n - 1].name|, mark)
    else Short(n, size, mark)
  }

  predicate Asked(ws: seq<Write>) {
    ws != [] && ws[|ws| - 1].Indicator? && ws[|ws| - 1].text == "?"
  }

  /** Only a short node on one line is a key without "?", and one with it is not, but in the canonical
    * form inside flow collections. */
  predicate KeyRule(n: Settings, out: seq<Write>, w: Write) {
    && (w == Tight(":") ==>
          var key := ShortNode(out);
          && key.Some? && key.value.size <= (if key.value.mark then 129 else 128)
          && (out[|out| - 1].ScalarText? ==> !n.analysis(out[|out| - 1].value).multiline))
    && var key := ShortNode(out + [w]);
       key.Some? && key.value.start <= |out| && Asked(out[..key.value.start]) ==>
         || key.value.size > 128 || (n.canonical && Depth(out[..key.value.start]) > 0)
         || (w.ScalarText? && n.analysis(w.value).multiline)
  }

  // ----- Lines -------------------------------------------------------------------------

  /** The canonical form, or the width, asks for a new line. */
  predicate Wraps(n: Settings, out: seq<Write>) {
    n.canonical || n.pen(out).column > n.bestWidth
  }

  predicate Punctuated(out: seq<Write>) {
    out != [] && (IsOpening(out[|out| - 1]) || out[|out| - 1] == Tight(","))
  }

  /** A line of a flow collection is broken behind a bracket or "," exactly if it must be. */
  predicate LineRule(n: Settings, out: seq<Write>, w: Write) {
    Punctuated(out) ==> (IsOpening(out[|out| - 1]) && IsClosing(w)) || (w.Indent? <==> Wraps(n, out))
  }

  /** Breaks are allowed in a scalar exactly if it is not directly followed by ":". */
  predicate BreakRule(out: seq<Write>, w: Write) {
    out != [] && out[|out| - 1].ScalarText? ==> (out[|out| - 1].breaks <==> w != Tight(":"))
  }

  /** The column is reached from the first one in such steps. */
  predicate InSteps(column: int, step: int)
    decreases column
  {
    column == 0 || (0 < step <= column && InSteps(column - step, step))
  }

  predicate Multiple(n: Settings, column: int) {
    InSteps(column, n.bestIndent)
  }

  /** Lines are indented in steps of the indentation asked for. */
  predicate ColumnRule(n: Settings, w: Write) {
    && (w.Indent? ==> Multiple(n, w.column))
    && (w.ScalarText? ==> Multiple(n, w.indent) && w.indent > 0)
  }

  predicate Rule(n: Settings, out: seq<Write>, w: Write) {
    KeyRule(n, out, w) && LineRule(n, out, w) && BreakRule(out, w) && ColumnRule(n, w)
  }

  predicate Ruled(n: Settings, ws: seq<Write>) {
    forall i :: 0 <= i < |ws| ==> Rule(n, ws[..i], ws[i])
  }

  /** What is written for whole streams. */
  predicate WellWritten(n: Settings, es: seq<Event>, ws: seq<Write>) {
    && Ruled(n, ws) && Suited(n, Scalars(es), Texts(ws))
    && Brackets(ws) == BracketsFor(n, es, |es|) && Marks(ws) == MarksFor(n, es, |es|)
  }

  // ----- One write ---------------------------------------------------------------------

  /** The rules are kept so far, behind the first `pos` events. */
  predicate Kept(n: Settings, es: seq<Event>, pos: nat, out: seq<Write>, level: nat) {
    pos <= |es| && KeptBut(n, es, pos, out, level, MarksFor(n, es, pos))
  }

  /** The rules are kept, and the marks so far are these. */
  predicate KeptBut(n: Settings, es: seq<Event>, pos: nat, out: seq<Write>, level: nat, marks: seq<Write>) {
    && pos <= |es| && Ruled(n, out)
    && Brackets(out) == BracketsFor(n, es, pos) && Depth(out) == level == FlowDepth(n, es, pos)
    && Suited(n, Scalars(es[..pos]), Texts(out))
    && Marks(out) == marks
  }

  predicate IsMark(out: seq<Write>, w: Write) {
    w == DASHES || w == YAML || w == TAG || (w.TagText? && out != [] && out[|out| - 1] == TAG)
  }

  lemma RuledOn(n: Settings, out: seq<Write>, w: Write)
    requires Ruled(n, out) && Rule(n, out, w)
    ensures Ruled(n, out + [w])
  {
    hide Rule;
    var all := out + [w];
    forall i | 0 <= i < |all|
      ensures Rule(n, all[..i], all[i])
    {
      if i < |out| {
        assert all[..i] == out[..i];
      } else {
        assert all[..i] == out;
      }
    }
  }

  lemma Grown(out: seq<Write>, w: Write)
    ensures (out + [w])[..|out|] == out && (out + [w])[|out|] == w
  {
  }

  lemma OneMore(es: seq<Event>, pos: nat)
    requires pos < |es|
    ensures Scalars(es[..pos + 1]) ==
      if es[pos].kind == Scalar then Scalars(es[..pos]) + [es[pos]] else Scalars(es[..pos])
  {
    assert es[..pos + 1][..pos] == es[..pos];
  }

  /** An indicator, an anchor, a tag or an indentation. */
  lemma Put(n: Settings, es: seq<Event>, pos: nat, out: seq<Write>, w: Write, level: nat)
    requires Kept(n, es, pos, out, level) && Rule(n, out, w) && !w.ScalarText? && !IsOpening(w) && !IsClosing(w)
    requires !IsMark(out, w)
    ensures Kept(n, es, pos, out + [w], level)
  {
    hide Rule, Ruled, Suited, FlowDepth, BracketsFor, MarksFor;
    RuledOn(n, out, w);
    Grown(out, w);
  }

  lemma PutMark(n: Settings, es: seq<Event>, pos: nat, out: seq<Write>, w: Write, level: nat, marks: seq<Write>)
    requires KeptBut(n, es, pos, out, level, marks) && Rule(n, out, w)
    requires !w.ScalarText? && !IsOpening(w) && !IsClosing(w)
    ensures KeptBut(n, es, pos, out + [w], level, if IsMark(out, w) then marks + [w] else marks)
  {
    hide Rule, Ruled, Suited, FlowDepth, BracketsFor;
    RuledOn(n, out, w);
    Grown(out, w);
  }

  /** An event for which nothing more is written. */
  lemma Pass(n: Settings, es: seq<Event>, pos: nat, out: seq<Write>, level: nat)
    requires Kept(n, es, pos, out, level) && pos < |es| && es[pos].kind != Scalar
    requires !IsStart(es[pos].kind) && !IsEnd(es[pos].kind) && es[pos].kind != DocumentStart
    ensures Kept(n, es, pos + 1, out, level)
  {
    hide Ruled, Suited, Depth, Brackets, Texts, Marks;
    OneMore(es, pos);
  }

  lemma PutText(n: Settings, es: seq<Event>, pos: nat, out: seq<Write>, w: Write, level: nat)
    requires Kept(n, es, pos, out, level) && pos < |es| && es[pos].kind == Scalar
    requires w.ScalarText? && Rule(n, out, w) && Suits(n, es[pos], Text(w, TagBefore(out), level))
    ensures Kept(n, es, pos + 1, out + [w], level)
  {
    hide Rule, Ruled, Suits, Scalars;
    RuledOn(n, out, w);
    Grown(out, w);
    OneMore(es, pos);
  }

  lemma PutOpen(n: Settings, es: seq<Event>, pos: nat, out: seq<Write>, level: nat)
    requires Kept(n, es, pos, out, level) && pos < |es| && IsStart(es[pos].kind) && GoesFlow(n, es, pos, level)
    requires Rule(n, out, Opening(if es[pos].kind == SequenceStart then "[" else "{"))
    ensures Kept(n, es, pos + 1, out + [Opening(if es[pos].kind == SequenceStart then "[" else "{")], level + 1)
  {
    hide Rule, Ruled, Suited, Scalars;
    var w := Opening(if es[pos].kind == SequenceStart then "[" else "{");
    RuledOn(n, out, w);
    Grown(out, w);
    OneMore(es, pos);
  }

  lemma PassBlock(n: Settings, es: seq<Event>, pos: nat, out: seq<Write>)
    requires Kept(n, es, pos, out, 0) && pos < |es|
    requires if IsStart(es[pos].kind) then !GoesFlow(n, es, pos, 0) else IsEnd(es[pos].kind)
    ensures Kept(n, es, pos + 1, out, 0)
  {
    hide Ruled, Suited, Depth, Brackets, Texts, Marks;
    OneMore(es, pos);
  }

  lemma PutClose(n: Settings, es: seq<Event>, pos: nat, out: seq<Write>, level: nat)
    requires Kept(n, es, pos, out, level) && pos < |es| && IsEnd(es[pos].kind) && level > 0
    requires Rule(n, out, Tight(if es[pos].kind == SequenceEnd then "]" else "}"))
    ensures Kept(n, es, pos + 1, out + [Tight(if es[pos].kind == SequenceEnd then "]" else "}")], level - 1)
  {
    hide Rule, Ruled, Suited, Scalars;
    var w := Tight(if es[pos].kind == SequenceEnd then "]" else "}");
    RuledOn(n, out, w);
    Grown(out, w);
    OneMore(es, pos);
  }

  // ----- Several writes ----------------------------------------------------------------

  /** A write that is no part of the bookkeeping of brackets, scalars, keys and lists. */
  predicate Quiet(n: Settings, w: Write) {
    match w
    case Indicator(_, _, _, _) =>
      !IsOpening(w) && !IsClosing(w) && w != Tight(":") && w != Tight(",") && w != DASHES && w != YAML && w != TAG
    case Indent(column) => Multiple(n, column)
    case Anchor(_, alias) => !alias
    case TagText(_, _) => true
    case ScalarText(_, _, _, _, _) => false
  }

  /** The writes so far are not in the middle of a key or a directive. */
  predicate Loose(out: seq<Write>) {
    out != [] ==> (out[|out| - 1].ScalarText? ==> out[|out| - 1].breaks) && out[|out| - 1] != TAG
  }

  lemma QuietRule(n: Settings, out: seq<Write>, w: Write)
    requires Quiet(n, w) && Loose(out) && (Punctuated(out) ==> (w.Indent? <==> Wraps(n, out)))
    ensures Rule(n, out, w) && Loose(out + [w]) && !Punctuated(out + [w]) && !IsMark(out, w)
  {
    Grown(out, w);
  }

  lemma {:induction false} PutQuiet(n: Settings, es: seq<Event>, pos: nat, out: seq<Write>, more: seq<Write>,
      level: nat)
    requires Kept(n, es, pos, out, level) && Loose(out) && forall i :: 0 <= i < |more| ==> Quiet(n, more[i])
    requires Punctuated(out) && more != [] ==> (more[0].Indent? <==> Wraps(n, out))
    ensures Kept(n, es, pos, out + more, level) && Loose(out + more)
    ensures more != [] ==> !Punctuated(out + more)
    decreases |more|
  {
    hide Kept, Rule, Wraps, Quiet, Loose, Punctuated, IsMark;
    if more == [] {
      assert out + more == out;
    } else {
      var k := |more| - 1;
      PutQuiet(n, es, pos, out, more[..k], level);
      assert k == 0 ==> out + more[..k] == out;
      assert out + more == out + more[..k] + [more[k]];
      QuietRule(n, out + more[..k], more[k]);
      NoneOfThese(n, more[k]);
      Put(n, es, pos, out + more[..k], more[k], level);
    }
  }

  lemma NoneOfThese(n: Settings, w: Write)
    requires Quiet(n, w)
    ensures !w.ScalarText? && !IsOpening(w) && !IsClosing(w)
  {
  }

  // ----- Nodes -------------------------------------------------------------------------

  /** An indentation that occurs. */
  predicate Stepped(n: Settings, indent: int) {
    n.bestIndent >= 2 && (indent == -1 || Multiple(n, indent))
  }

  lemma InnerSteps(n: Settings, s: Settings, indent: int, flow: bool, indentless: bool)
    requires Stepped(n, indent) && s.bestIndent == n.bestIndent
    ensures Multiple(n, Inner(s, indent, flow, indentless)) && Stepped(n, Inner(s, indent, flow, indentless))
    ensures Inner(s, indent, true, false) > 0
  {
    var column := if indent < 0 then 0 else indent;
    assert InSteps(column + n.bestIndent - n.bestIndent, n.bestIndent) && column >= 0;
  }

  /** A node may be written now. */
  predicate Ready(n: Settings, out: seq<Write>, level: nat) {
    && (out != [] ==> (out[|out| - 1].Indicator? || out[|out| - 1].Indent?) && out[|out| - 1] != TAG)
    && (Punctuated(out) ==> level > 0 && !Wraps(n, out))
  }

  /** The node that was written may be a key without an indicator. */
  predicate ShortKey(n: Settings, out: seq<Write>) {
    var key := ShortNode(out);
    && key.Some? && key.value.size <= (if key.value.mark then 129 else 128)
    && (out[|out| - 1].ScalarText? ==> !n.analysis(out[|out| - 1].value).multiline)
  }

  /** A node has been written. */
  predicate Finished(n: Settings, out: seq<Write>, key: bool) {
    && !Punctuated(out) && (out != [] ==> out[|out| - 1] != TAG)
    && (out != [] && out[|out| - 1].ScalarText? ==> (out[|out| - 1].breaks <==> !key))
    && (key ==> ShortKey(n, out))
  }

  /** The properties of a node stand at the end of `o`, behind `out`. */
  ghost predicate Headed(n: Settings, out: seq<Write>, o: seq<Write>, level: nat, size: nat, mark: bool) {
    && out <= o && Loose(o) && (o != [] ==> !o[|o| - 1].ScalarText?)
    && (Punctuated(o) ==> level > 0 && !Wraps(n, o))
    && forall k: nat :: WithTag(o, k) == Short(|out|, k + size, mark)
  }

  lemma AnchorEnds(out: seq<Write>, e: Event, size: nat, mark: bool)
    requires e.kind != Alias && (out != [] ==> out[|out| - 1].Indicator? || out[|out| - 1].Indent?)
    ensures WithAnchor(out + Anchoring(e), size, mark) == Short(|out|, size + |AnchorText(e)|, mark)
  {
    var anchored := out + Anchoring(e);
    if AnchorText(e) != "" {
      assert anchored[|anchored| - 1] == Anchor(AnchorText(e), false);
    } else {
      assert anchored == out;
    }
  }

  lemma TagEnds(anchored: seq<Write>, tag: Tag, size: nat)
    requires anchored != [] ==> !anchored[|anchored| - 1].TagText?
    ensures WithTag(anchored + Tagging(tag), size)
         == WithAnchor(anchored, size + |tag.handle| + |tag.suffix|, tag == Tag("!", ""))
    ensures TagBefore(anchored + Tagging(tag)) == if tag == NO_TAG then None else Some(TagText(tag.handle, tag.suffix))
  {
    hide WithAnchor;
    if tag != NO_TAG {
      Grown(anchored, TagText(tag.handle, tag.suffix));
    } else {
      assert anchored + Tagging(tag) == anchored;
    }
  }

  lemma LastOfProperties(n: Settings, out: seq<Write>, e: Event, tag: Tag, level: nat)
    requires Ready(n, out, level) && e.kind != Alias
    ensures var anchored := out + Anchoring(e); var o := anchored + Tagging(tag);
      && out <= o && Loose(out) && Loose(o) && (o != [] ==> !o[|o| - 1].ScalarText?)
      && (Punctuated(o) ==> level > 0 && !Wraps(n, o))
      && (Punctuated(anchored) ==> !Wraps(n, anchored)) && Loose(anchored)
      && (anchored != [] ==> !anchored[|anchored| - 1].TagText?)
  {
    hide Wraps;
    assert AnchorText(e) == "" ==> out + Anchoring(e) == out;
    assert tag == NO_TAG ==> out + Anchoring(e) + Tagging(tag) == out + Anchoring(e);
  }

  lemma Properties(n: Settings, es: seq<Event>, pos: nat, out: seq<Write>, e: Event, tag: Tag, level: nat)
    requires Kept(n, es, pos, out, level) && Ready(n, out, level) && e.kind != Alias
    ensures var o := out + Anchoring(e) + Tagging(tag);
      && Kept(n, es, pos, o, level)
      && Headed(n, out, o, level, |AnchorText(e)| + |tag.handle| + |tag.suffix|, tag == Tag("!", ""))
      && TagBefore(o) == if tag == NO_TAG then None else Some(TagText(tag.handle, tag.suffix))
  {
    hide Kept, Wraps, Loose, Punctuated, WithTag, WithAnchor, TagBefore;
    var anchored := out + Anchoring(e);
    LastOfProperties(n, out, e, tag, level);
    PutQuiet(n, es, pos, out, Anchoring(e), level);
    PutQuiet(n, es, pos, anchored, Tagging(tag), level);
    forall k: nat
      ensures WithTag(anchored + Tagging(tag), k)
           == Short(|out|, k + |AnchorText(e)| + |tag.handle| + |tag.suffix|, tag == Tag("!", ""))
    {
      TagEnds(anchored, tag, k);
      AnchorEnds(out, e, k + |tag.handle| + |tag.suffix|, tag == Tag("!", ""));
    }
    TagEnds(anchored, tag, 0);
  }

  /** The tag of an event counts exactly if it needs to be written. */
  lemma TagIs(n: Settings, s: Settings, e: Event)
    requires n == s.(directives := []) && e.kind == Scalar && AllHandles(s.directives)
    ensures TagOf(s, e) != NO_TAG <==> NeedsTag(n, e)
  {
    if e.tag != "" {
      SomeTag(s.directives, e.tag);
    }
  }

  lemma {:induction false} SomeTag(ds: seq<TagDirective>, tag: string)
    requires tag != "" && AllHandles(ds)
    ensures Split(ds, tag) != NO_TAG
  {
    if ds != [] {
      SomeTag(ds[1..], tag);
    }
  }

  /** The style and the tag that the printer gives to a scalar are right. */
  lemma StyleSuits(n: Settings, s: Settings, e: Event, indent: int, level: nat, place: Place)
    requires n == s.(directives := []) && e.kind == Scalar && (TagOf(s, e) != NO_TAG <==> NeedsTag(n, e))
    ensures var style := StyleOf(s, e, level > 0, place.simpleKey);
      var tag := ScalarTag(s, e, style);
      Suits(n, e, Text(ScalarText(e.value, style, indent, !place.simpleKey, place.root),
        if tag == NO_TAG then None else Some(TagText(tag.handle, tag.suffix)), level))
  {
    hide TagOf;
  }

  predicate AllHandles(ds: seq<TagDirective>) {
    forall d :: d in ds ==> d.handle != ""
  }

  ghost predicate Setting(n: Settings, s: Settings, es: seq<Event>) {
    && n == s.(directives := []) && n.bestIndent >= 2 && Named(es)
    && AllHandles(s.directives)
  }

  /** The node at `pos` may be written, as a key without "?" only if it is short. */
  predicate MayStart(n: Settings, s: Settings, es: seq<Event>, pos: nat, out: seq<Write>, level: nat, key: bool)
    requires pos < |es|
  {
    && Ready(n, out, level) && (key ==> SimpleKey(s, es, pos))
    && (Asked(out) ==> (s.canonical && level > 0) || !SimpleKey(s, es, pos))
  }

  lemma KeptDepth(n: Settings, es: seq<Event>, pos: nat, out: seq<Write>, level: nat)
    requires Kept(n, es, pos, out, level)
    ensures Depth(out) == level && pos <= |es|
  {
  }

  /** The write that completes a short node. */
  lemma CoreRule(n: Settings, out: seq<Write>, o: seq<Write>, w: Write, level: nat, size: nat, mark: bool)
    requires Headed(n, out, o, level, size, mark) && w.ScalarText? && Depth(out) == level && ColumnRule(n, w)
    requires Asked(out) ==>
      (n.canonical && level > 0) || n.analysis(w.value).multiline || size + |w.value| > 128
    ensures Rule(n, o, w) && ShortNode(o + [w]) == Some(Short(|out|, size + |w.value|, mark))
  {
    hide Depth, WithTag, Asked, Wraps;
    Grown(o, w);
    assert WithTag(o, |w.value|) == Short(|out|, |w.value| + size, mark);
    assert o[..|out|] == out;
  }

  lemma ScalarKeeps(n: Settings, s: Settings, es: seq<Event>, pos: nat, out: seq<Write>, indent: int, level: nat,
      place: Place)
    requires Setting(n, s, es) && Kept(n, es, pos, out, level) && pos < |es| && es[pos].kind == Scalar
    requires MayStart(n, s, es, pos, out, level, place.simpleKey) && Stepped(n, indent)
    ensures var r := out + ScalarWrites(s, es[pos], indent, level, place);
      Kept(n, es, pos + 1, r, level) && Finished(n, r, place.simpleKey)
  {
    hide Kept, Rule, StyleOf, NeedsTag, Suits, Depth, Wraps, WithTag, ShortNode, TagBefore, InSteps, Finished, TagOf;
    var e := es[pos];
    var style := StyleOf(s, e, level > 0, place.simpleKey);
    var tag := ScalarTag(s, e, style);
    var o := out + Anchoring(e) + Tagging(tag);
    var w := ScalarText(e.value, style, Inner(s, indent, true, false), !place.simpleKey, place.root);
    TagIs(n, s, e);
    StyleSuits(n, s, e, Inner(s, indent, true, false), level, place);
    InnerSteps(n, s, indent, true, false);
    Properties(n, es, pos, out, e, tag, level);
    KeptDepth(n, es, pos, out, level);
    CoreRule(n, out, o, w, level, |AnchorText(e)| + |tag.handle| + |tag.suffix|, tag == Tag("!", ""));
    PutText(n, es, pos, o, w, level);
    assert out + ScalarWrites(s, e, indent, level, place) == o + [w];
    ScalarFinished(n, s, es, pos, |out|, o, w, tag);
  }

  lemma ScalarFinished(n: Settings, s: Settings, es: seq<Event>, pos: nat, start: nat, o: seq<Write>, w: Write,
      tag: Tag)
    requires pos < |es| && es[pos].kind == Scalar && w.ScalarText? && w.value == es[pos].value
    requires n == s.(directives := []) && (tag == TagOf(s, es[pos]) || tag == Tag("!", ""))
    requires !w.breaks ==> SimpleKey(s, es, pos)
    requires ShortNode(o + [w]) ==
      Some(Short(start, |AnchorText(es[pos])| + |tag.handle| + |tag.suffix| + |w.value|, tag == Tag("!", "")))
    ensures Finished(n, o + [w], !w.breaks)
  {
    hide ShortNode, TagOf;
    Grown(o, w);
  }

  lemma AliasKeeps(n: Settings, s: Settings, es: seq<Event>, pos: nat, out: seq<Write>, level: nat, key: bool)
    requires Setting(n, s, es) && Kept(n, es, pos, out, level) && pos < |es| && es[pos].kind == Alias
    requires MayStart(n, s, es, pos, out, level, key)
    ensures Kept(n, es, pos + 1, out + Anchoring(es[pos]), level) && Finished(n, out + Anchoring(es[pos]), key)
  {
    hide Kept, Wraps, Depth;
    var e := es[pos];
    var star, w := [Spaced("*")], Anchor(AnchorText(e), true);
    var o := out + star;
    KeptDepth(n, es, pos, out, level);
    PutQuiet(n, es, pos, out, star, level);
    Grown(o, w);
    assert out + Anchoring(e) == o + [w] && o[..|out|] == out;
    Put(n, es, pos, o, w, level);
    Pass(n, es, pos, o + [w], level);
  }

  // ----- Collections -------------------------------------------------------------------

  lemma IndentIsQuiet(n: Settings, indent: int)
    requires indent == -1 || Multiple(n, indent)
    ensures Quiet(n, IndentTo(indent))
  {
  }

  /** A "," behind an entry of a flow collection. */
  lemma Comma(n: Settings, es: seq<Event>, pos: nat, out: seq<Write>, level: nat)
    requires Kept(n, es, pos, out, level) && Finished(n, out, false)
    ensures var comma := out + [Tight(",")];
      Kept(n, es, pos, comma, level) && comma[|comma| - 1] == Tight(",") && Punctuated(comma) && Loose(comma)
  {
    hide Kept, InSteps, WithTag, Wraps;
    Put(n, es, pos, out, Tight(","), level);
    Grown(out, Tight(","));
  }

  lemma Separates(n: Settings, s: Settings, es: seq<Event>, pos: nat, out: seq<Write>, inner: int, level: nat,
      first: bool)
    requires Setting(n, s, es) && Kept(n, es, pos, out, level) && level > 0 && Multiple(n, inner)
    requires if first then out != [] && IsOpening(out[|out| - 1]) else Finished(n, out, false)
    ensures var line := Separated(s, out, inner, first);
      Kept(n, es, pos, line, level) && Ready(n, line, level) && !Asked(line)
  {
    hide Kept, InSteps, Finished, Quiet;
    var comma := if first then out else out + [Tight(",")];
    IndentIsQuiet(n, inner);
    if !first {
      Comma(n, es, pos, out, level);
    }
    if Wraps(n, comma) {
      PutQuiet(n, es, pos, comma, [IndentTo(inner)], level);
      Grown(comma, IndentTo(inner));
    }
  }

  /** In the canonical form, the last entry of a collection has a "," too. */
  lemma LastComma(n: Settings, es: seq<Event>, pos: nat, out: seq<Write>, outer: int, level: nat)
    requires Kept(n, es, pos, out, level) && Stepped(n, outer) && Finished(n, out, false) && n.canonical
    ensures var before := out + [Tight(","), IndentTo(outer)];
      Kept(n, es, pos, before, level) && before[|before| - 1].Indent?
  {
    hide Kept, InSteps, Finished, Quiet;
    var comma := out + [Tight(",")];
    IndentIsQuiet(n, outer);
    Comma(n, es, pos, out, level);
    PutQuiet(n, es, pos, comma, [IndentTo(outer)], level);
    assert comma + [IndentTo(outer)] == out + [Tight(","), IndentTo(outer)];
  }

  /** A bracket closes a collection behind a child, a line or the opening bracket. */
  lemma CloseRule(n: Settings, out: seq<Write>, close: string)
    requires close == "]" || close == "}"
    requires out != [] && (out[|out| - 1].Indent? || Finished(n, out, false) || KeyRule(n, out, Tight(close)))
    requires Punctuated(out) ==> IsOpening(out[|out| - 1]) && KeyRule(n, out, Tight(close))
    requires Loose(out)
    ensures Rule(n, out, Tight(close)) && Finished(n, out + [Tight(close)], false)
  {
    hide WithTag, Wraps, Depth;
    Grown(out, Tight(close));
  }

  /** The end of a flow collection. */
  lemma Closes(n: Settings, s: Settings, es: seq<Event>, pos: nat, out: seq<Write>, outer: int, level: nat, first: bool)
    requires Setting(n, s, es) && Kept(n, es, pos, out, level) && level > 0 && Stepped(n, outer)
    requires pos < |es| && IsEnd(es[pos].kind)
    requires if first then out != [] && IsOpening(out[|out| - 1]) else Finished(n, out, false)
    requires var close := if es[pos].kind == SequenceEnd then "]" else "}"; first ==> KeyRule(n, out, Tight(close))
    ensures var r := Closed(s, out, if es[pos].kind == SequenceEnd then "]" else "}", outer, first);
      Kept(n, es, pos + 1, r, level - 1) && Finished(n, r, false)
    ensures var close := if es[pos].kind == SequenceEnd then "]" else "}";
      first ==> Closed(s, out, close, outer, first) == out + [Tight(close)]
  {
    hide Kept, Depth, KeyRule, Rule, Stepped;
    var close := if es[pos].kind == SequenceEnd then "]" else "}";
    var before := if s.canonical && !first then out + [Tight(","), IndentTo(outer)] else out;
    if s.canonical && !first {
      LastComma(n, es, pos, out, outer, level);
    }
    SomethingWritten(n, es, pos, before, level);
    CloseRule(n, before, close);
    PutClose(n, es, pos, before, level);
  }

  lemma SomethingWritten(n: Settings, es: seq<Event>, pos: nat, out: seq<Write>, level: nat)
    requires Kept(n, es, pos, out, level) && level > 0
    ensures out != []
  {
  }

  /** A node keeps the rules. */
  lemma {:induction false} NodeKeeps(n: Settings, s: Settings, es: seq<Event>, pos: nat, out: seq<Write>, indent: int,
      level: nat, place: Place, base: seq<Frame>, f: Frame)
    requires Legal(es, pos, Doc(base + [f])) && pos < |es| && IsNode(es[pos].kind)
    requires Setting(n, s, es) && Kept(n, es, pos, out, level) && Stepped(n, indent)
    requires MayStart(n, s, es, pos, out, level, place.simpleKey)
    ensures var r := Node(s, es, pos, out, indent, level, place);
      Kept(n, es, r.pos, r.out, level) && Finished(n, r.out, place.simpleKey)
    decreases |es| - pos, 0
  {
    hide Legal, Step, Kept, Setting, Collection, Anchoring, Tagging, TagOf, ScalarWrites, Finished, Stepped;
    var e := es[pos];
    Next(es, pos, Doc(base + [f]));
    Steps(base, f, e.kind);
    if e.kind == Alias {
      AliasKeeps(n, s, es, pos, out, level, place.simpleKey);
    } else if e.kind == Scalar {
      ScalarKeeps(n, s, es, pos, out, indent, level, place);
    } else {
      CollectionKeeps(n, s, es, pos, out, indent, level, place, base + [Fill(f)]);
    }
  }

  /** What is written of a collection behind its properties. */
  lemma {:induction false} CollectionKeeps(n: Settings, s: Settings, es: seq<Event>, pos: nat, out: seq<Write>,
      indent: int, level: nat, place: Place, base: seq<Frame>)
    requires pos < |es| && IsStart(es[pos].kind)
    requires Legal(es, pos + 1, Doc(base + [if es[pos].kind == SequenceStart then SeqFrame else MapFrame(true)]))
    requires Setting(n, s, es) && Kept(n, es, pos, out, level) && Stepped(n, indent)
    requires MayStart(n, s, es, pos, out, level, place.simpleKey)
    ensures var r := Node(s, es, pos, out, indent, level, place);
      Kept(n, es, r.pos, r.out, level) && Finished(n, r.out, place.simpleKey)
    decreases |es| - pos - 1, 3
  {
    hide Legal, Step, Kept, Anchoring, Tagging, TagOf, FlowItems, FlowPairs, BlockItems, BlockPairs, Stepped, Depth,
      KeyRule, WithTag, Inner, Wraps;
    var e := es[pos];
    var tag := TagOf(s, e);
    var o := out + Anchoring(e) + Tagging(tag);
    var size, mark := |AnchorText(e)| + |tag.handle| + |tag.suffix|, tag == Tag("!", "");
    Properties(n, es, pos, out, e, tag, level);
    InnerSteps(n, s, indent, true, false);
    if InFlow(s, es, pos, level) {
      FlowKeeps(n, s, es, pos, out, o, indent, level, place, size, mark, base);
    } else {
      NotEmpty(s, es, pos, level, base);
      PassBlock(n, es, pos, o);
      if e.kind == SequenceStart {
        var inner := Inner(s, indent, false, place.mapping && !s.pen(o).indention);
        InnerSteps(n, s, indent, false, place.mapping && !s.pen(o).indention);
        BlockItemsKeeps(n, s, es, pos + 1, o, inner, base);
      } else {
        InnerSteps(n, s, indent, false, false);
        BlockPairsKeeps(n, s, es, pos + 1, o, Inner(s, indent, false, false), base);
      }
    }
  }

  lemma {:induction false} FlowKeeps(n: Settings, s: Settings, es: seq<Event>, pos: nat, out: seq<Write>,
      o: seq<Write>, indent: int, level: nat, place: Place, size: nat, mark: bool, base: seq<Frame>)
    requires pos < |es| && IsStart(es[pos].kind) && InFlow(s, es, pos, level)
    requires Legal(es, pos + 1, Doc(base + [if es[pos].kind == SequenceStart then SeqFrame else MapFrame(true)]))
    requires Setting(n, s, es) && Kept(n, es, pos, o, level) && Stepped(n, indent) && Kept(n, es, pos, out, level)
    requires MayStart(n, s, es, pos, out, level, place.simpleKey) && Headed(n, out, o, level, size, mark)
    requires var tag := TagOf(s, es[pos]);
      size == |AnchorText(es[pos])| + |tag.handle| + |tag.suffix| && mark == (tag == Tag("!", ""))
    ensures var r := Collection(s, es, pos + 1, o, es[pos].kind == SequenceStart, true, indent, level, place.mapping);
      Kept(n, es, r.pos, r.out, level) && Finished(n, r.out, place.simpleKey)
    decreases |es| - pos - 1, 2
  {
    hide Legal, Step, Kept, TagOf, FlowItems, FlowPairs, Stepped, Depth, KeyRule, Inner, Wraps, Headed, Finished;
    var sequence := es[pos].kind == SequenceStart;
    var open := Opening(if sequence then "[" else "{");
    var inner := Inner(s, indent, true, false);
    InnerSteps(n, s, indent, true, false);
    KeptDepth(n, es, pos, out, level);
    OpenRule(n, out, o, open, level, size, mark);
    PutOpen(n, es, pos, o, level);
    Grown(o, open);
    Next(es, pos + 1, Doc(base + [if sequence then SeqFrame else MapFrame(true)]));
    if EmptyAt(es, pos) {
      EmptyRule(n, s, es, pos, out, o, level, size, mark, place.simpleKey);
    }
    if sequence {
      FlowItemsKeeps(n, s, es, pos + 1, o + [open], indent, inner, level + 1, true, base);
    } else {
      FlowPairsKeeps(n, s, es, pos + 1, o + [open], indent, inner, level + 1, true, base);
    }
    if place.simpleKey {
      SimpleIsEmpty(s, es, pos);
      EmptyIsFinished(n, o + [open], Closing(es[pos].kind));
    }
  }

  lemma SimpleIsEmpty(s: Settings, es: seq<Event>, pos: nat)
    requires pos < |es| && IsStart(es[pos].kind) && SimpleKey(s, es, pos)
    ensures EmptyAt(es, pos)
  {
  }

  lemma EmptyIsFinished(n: Settings, start: seq<Write>, w: Write)
    requires ShortKey(n, start + [w]) && IsClosing(w)
    ensures Finished(n, start + [w], true)
  {
    hide ShortKey;
    Grown(start, w);
  }

  lemma OpenRule(n: Settings, out: seq<Write>, o: seq<Write>, w: Write, level: nat, size: nat, mark: bool)
    requires Headed(n, out, o, level, size, mark) && IsOpening(w) && w.Indicator?
    ensures w != Tight(":") ==> Rule(n, o, w)
  {
    hide WithTag, Wraps;
    Grown(o, w);
  }

  function Closing(k: EventKind): Write {
    Tight(if k == SequenceStart then "]" else "}")
  }

  /** An empty collection may be closed, and is a short node. */
  lemma EmptyRule(n: Settings, s: Settings, es: seq<Event>, pos: nat, out: seq<Write>, o: seq<Write>, level: nat,
      size: nat, mark: bool, key: bool)
    requires pos < |es| && IsStart(es[pos].kind) && EmptyAt(es, pos)
    requires Depth(out) == level && n.canonical == s.canonical
    requires MayStart(n, s, es, pos, out, level, key) && Headed(n, out, o, level, size, mark)
    requires var tag := TagOf(s, es[pos]);
      size == |AnchorText(es[pos])| + |tag.handle| + |tag.suffix| && mark == (tag == Tag("!", ""))
    ensures var start := o + [Opening(if es[pos].kind == SequenceStart then "[" else "{")];
      && KeyRule(n, start, Closing(es[pos].kind))
      && (key ==> ShortKey(n, start + [Closing(es[pos].kind)]))
  {
    hide TagOf, Depth, WithTag, Wraps, ShortNode;
    var w := Opening(if es[pos].kind == SequenceStart then "[" else "{");
    var start := o + [w];
    EmptyIsShort(n, out, o, w, Closing(es[pos].kind), level, size, mark);
    Grown(start, Closing(es[pos].kind));
    assert start[..|out|] == out;
  }

  lemma EmptyIsShort(n: Settings, out: seq<Write>, o: seq<Write>, w: Write, close: Write, level: nat, size: nat,
      mark: bool)
    requires Headed(n, out, o, level, size, mark) && IsOpening(w) && IsClosing(close)
    ensures ShortNode(o + [w] + [close]) == Some(Short(|out|, size, mark))
  {
    hide WithTag, Wraps;
    var all := o + [w] + [close];
    assert all[..|all| - 2] == o && all[|all| - 2] == w && all[|all| - 1] == close;
    assert WithTag(o, 0) == Short(|out|, 0 + size, mark);
  }

  lemma {:induction false} FlowItemsKeeps(n: Settings, s: Settings, es: seq<Event>, pos: nat, out: seq<Write>,
      outer: int, inner: int, level: nat, first: bool, base: seq<Frame>)
    requires Legal(es, pos, Doc(base + [SeqFrame])) && pos <= |es|
    requires Setting(n, s, es) && Kept(n, es, pos, out, level) && level > 0 && Stepped(n, outer) && Multiple(n, inner)
    requires if first then out != [] && IsOpening(out[|out| - 1]) else Finished(n, out, false)
    requires first && pos < |es| && es[pos].kind == SequenceEnd ==> KeyRule(n, out, Tight("]"))
    ensures var r := FlowItems(s, es, pos, out, outer, inner, level, first);
      && Kept(n, es, r.pos, r.out, level - 1) && Finished(n, r.out, false)
      && (first && pos < |es| && es[pos].kind == SequenceEnd ==> r.out == out + [Tight("]")])
    decreases |es| - pos, 1
  {
    hide Legal, Step, Kept, Setting, Node, Separated, Closed, Finished, KeyRule, InSteps, Ready;
    Next(es, pos, Doc(base + [SeqFrame]));
    Steps(base, SeqFrame, es[pos].kind);
    if IsNode(es[pos].kind) {
      var line := Separated(s, out, inner, first);
      var item := Node(s, es, pos, line, inner, level, ITEM);
      Separates(n, s, es, pos, out, inner, level, first);
      NodeKeeps(n, s, es, pos, line, inner, level, ITEM, base, SeqFrame);
      NodeDone(s, es, pos, line, inner, level, ITEM, base, SeqFrame);
      FlowItemsKeeps(n, s, es, item.pos, item.out, outer, inner, level, false, base);
    } else {
      Closes(n, s, es, pos, out, outer, level, first);
    }
  }

  lemma {:induction false} FlowPairsKeeps(n: Settings, s: Settings, es: seq<Event>, pos: nat, out: seq<Write>,
      outer: int, inner: int, level: nat, first: bool, base: seq<Frame>)
    requires Legal(es, pos, Doc(base + [MapFrame(true)])) && pos <= |es|
    requires Setting(n, s, es) && Kept(n, es, pos, out, level) && level > 0 && Stepped(n, outer) && Multiple(n, inner)
    requires if first then out != [] && IsOpening(out[|out| - 1]) else Finished(n, out, false)
    requires first && pos < |es| && es[pos].kind == MappingEnd ==> KeyRule(n, out, Tight("}"))
    ensures var r := FlowPairs(s, es, pos, out, outer, inner, level, first);
      && Kept(n, es, r.pos, r.out, level - 1) && Finished(n, r.out, false)
      && (first && pos < |es| && es[pos].kind == MappingEnd ==> r.out == out + [Tight("}")])
    decreases |es| - pos, 1
  {
    hide Legal, Step, Kept, Setting, Node, Separated, Closed, Finished, KeyRule, InSteps, Ready, SimpleKey, FlowValue;
    Next(es, pos, Doc(base + [MapFrame(true)]));
    Steps(base, MapFrame(true), es[pos].kind);
    if IsNode(es[pos].kind) {
      var line := Separated(s, out, inner, first);
      var simple := !s.canonical && SimpleKey(s, es, pos);
      var before := if simple then line else line + [Spaced("?")];
      var key := Node(s, es, pos, before, inner, level, KEY(simple));
      Separates(n, s, es, pos, out, inner, level, first);
      if !simple {
        Asks(n, es, pos, line, Spaced("?"), level);
      }
      NodeKeeps(n, s, es, pos, before, inner, level, KEY(simple), base, MapFrame(true));
      NodeDone(s, es, pos, before, inner, level, KEY(simple), base, MapFrame(true));
      FlowValueKeeps(n, s, es, key.pos, key.out, outer, inner, level, simple, base);
    } else {
      Closes(n, s, es, pos, out, outer, level, first);
    }
  }

  /** An indicator before a node. */
  lemma Asks(n: Settings, es: seq<Event>, pos: nat, line: seq<Write>, w: Write, level: nat)
    requires Kept(n, es, pos, line, level) && Ready(n, line, level) && Quiet(n, w) && w.Indicator?
    ensures Kept(n, es, pos, line + [w], level) && Ready(n, line + [w], level)
    ensures w.text != "?" ==> !Asked(line + [w])
  {
    hide Kept, Wraps;
    PutQuiet(n, es, pos, line, [w], level);
    Grown(line, w);
  }

  /** The ":" behind a simple key. */
  lemma Colon(n: Settings, es: seq<Event>, pos: nat, out: seq<Write>, level: nat)
    requires Kept(n, es, pos, out, level) && Finished(n, out, true)
    ensures Kept(n, es, pos, out + [Tight(":")], level) && Ready(n, out + [Tight(":")], level)
    ensures !Asked(out + [Tight(":")])
  {
    hide Kept, Wraps, WithTag;
    Grown(out, Tight(":"));
    Put(n, es, pos, out, Tight(":"), level);
  }

  lemma FinishedIsLoose(n: Settings, out: seq<Write>)
    requires Finished(n, out, false)
    ensures Loose(out) && !Punctuated(out)
  {
  }

  lemma {:induction false} FlowValueKeeps(n: Settings, s: Settings, es: seq<Event>, pos: nat, out: seq<Write>,
      outer: int, inner: int, level: nat, simple: bool, base: seq<Frame>)
    requires Legal(es, pos, Doc(base + [MapFrame(false)])) && pos <= |es|
    requires Setting(n, s, es) && Kept(n, es, pos, out, level) && level > 0 && Stepped(n, outer) && Multiple(n, inner)
    requires Finished(n, out, simple)
    ensures var r := FlowValue(s, es, pos, out, outer, inner, level, simple);
      Kept(n, es, r.pos, r.out, level - 1) && Finished(n, r.out, false)
    decreases |es| - pos, 1
  {
    hide Legal, Step, Kept, Setting, Node, Finished, InSteps, Wrapped, Ready, SimpleKey, FlowPairs, Asked;
    Next(es, pos, Doc(base + [MapFrame(false)]));
    Steps(base, MapFrame(false), es[pos].kind);
    var before := if simple then out + [Tight(":")] else Wrapped(s, out, inner) + [Spaced(":")];
    var value := Node(s, es, pos, before, inner, level, VALUE);
    if simple {
      Colon(n, es, pos, out, level);
    } else {
      LongColon(n, s, es, pos, out, inner, level);
    }
    NodeKeeps(n, s, es, pos, before, inner, level, VALUE, base, MapFrame(false));
    NodeDone(s, es, pos, before, inner, level, VALUE, base, MapFrame(false));
    FlowPairsKeeps(n, s, es, value.pos, value.out, outer, inner, level, false, base);
  }

  lemma LongColon(n: Settings, s: Settings, es: seq<Event>, pos: nat, out: seq<Write>, inner: int, level: nat)
    requires Setting(n, s, es) && Kept(n, es, pos, out, level) && Multiple(n, inner) && Finished(n, out, false)
    ensures var before := Wrapped(s, out, inner) + [Spaced(":")];
      Kept(n, es, pos, before, level) && Ready(n, before, level) && !Asked(before)
  {
    hide Kept, Setting;
    FinishedIsLoose(n, out);
    if Wrapped(s, out, inner) == out {
      PutQuiet(n, es, pos, out, [Spaced(":")], level);
    } else {
      PutQuiet(n, es, pos, out, [IndentTo(inner), Spaced(":")], level);
      assert out + [IndentTo(inner), Spaced(":")] == out + [IndentTo(inner)] + [Spaced(":")];
    }
    Grown(Wrapped(s, out, inner), Spaced(":"));
  }

  /** A new line of a block collection, with an indicator or without. */
  lemma NewLine(n: Settings, es: seq<Event>, pos: nat, out: seq<Write>, inner: int, text: string)
    requires Kept(n, es, pos, out, 0) && Multiple(n, inner) && Finished(n, out, false)
    requires text == "" || text == "-" || text == "?" || text == ":"
    ensures var line := out + if text == "" then [IndentTo(inner)] else [IndentTo(inner), Compact(text)];
      Kept(n, es, pos, line, 0) && Ready(n, line, 0) && (text != "?" ==> !Asked(line))
  {
    hide Kept, InSteps, Wraps;
    FinishedIsLoose(n, out);
    IndentIsQuiet(n, inner);
    var more := if text == "" then [IndentTo(inner)] else [IndentTo(inner), Compact(text)];
    PutQuiet(n, es, pos, out, more, 0);
    assert (out + more)[|out| + |more| - 1] == more[|more| - 1];
  }

  lemma {:induction false} BlockItemsKeeps(n: Settings, s: Settings, es: seq<Event>, pos: nat, out: seq<Write>,
      inner: int, base: seq<Frame>)
    requires Legal(es, pos, Doc(base + [SeqFrame])) && pos <= |es|
    requires Setting(n, s, es) && Kept(n, es, pos, out, 0) && Multiple(n, inner) && Finished(n, out, false)
    ensures var r := BlockItems(s, es, pos, out, inner, 0); Kept(n, es, r.pos, r.out, 0) && Finished(n, r.out, false)
    decreases |es| - pos, 1
  {
    hide Legal, Step, Kept, Named, Node, Finished, InSteps, Ready, Asked;
    Next(es, pos, Doc(base + [SeqFrame]));
    Steps(base, SeqFrame, es[pos].kind);
    if IsNode(es[pos].kind) {
      var line := out + [IndentTo(inner), Compact("-")];
      var item := Node(s, es, pos, line, inner, 0, ITEM);
      NewLine(n, es, pos, out, inner, "-");
      NodeKeeps(n, s, es, pos, line, inner, 0, ITEM, base, SeqFrame);
      NodeDone(s, es, pos, line, inner, 0, ITEM, base, SeqFrame);
      BlockItemsKeeps(n, s, es, item.pos, item.out, inner, base);
    } else {
      PassBlock(n, es, pos, out);
    }
  }

  lemma {:induction false} BlockPairsKeeps(n: Settings, s: Settings, es: seq<Event>, pos: nat, out: seq<Write>,
      inner: int, base: seq<Frame>)
    requires Legal(es, pos, Doc(base + [MapFrame(true)])) && pos <= |es|
    requires Setting(n, s, es) && Kept(n, es, pos, out, 0) && Multiple(n, inner) && Finished(n, out, false)
    ensures var r := BlockPairs(s, es, pos, out, inner, 0); Kept(n, es, r.pos, r.out, 0) && Finished(n, r.out, false)
    decreases |es| - pos, 1
  {
    hide Legal, Step, Kept, Named, Node, Finished, InSteps, Ready, SimpleKey, BlockValue;
    Next(es, pos, Doc(base + [MapFrame(true)]));
    Steps(base, MapFrame(true), es[pos].kind);
    if IsNode(es[pos].kind) {
      var simple := SimpleKey(s, es, pos);
      var before := if simple then out + [IndentTo(inner)] else out + [IndentTo(inner)] + [Compact("?")];
      var key := Node(s, es, pos, before, inner, 0, KEY(simple));
      NewLine(n, es, pos, out, inner, if simple then "" else "?");
      assert out + [IndentTo(inner), Compact("?")] == out + [IndentTo(inner)] + [Compact("?")];
      NodeKeeps(n, s, es, pos, before, inner, 0, KEY(simple), base, MapFrame(true));
      NodeDone(s, es, pos, before, inner, 0, KEY(simple), base, MapFrame(true));
      BlockValueKeeps(n, s, es, key.pos, key.out, inner, simple, base);
    } else {
      PassBlock(n, es, pos, out);
    }
  }

  lemma {:induction false} BlockValueKeeps(n: Settings, s: Settings, es: seq<Event>, pos: nat, out: seq<Write>,
      inner: int, simple: bool, base: seq<Frame>)
    requires Legal(es, pos, Doc(base + [MapFrame(false)])) && pos <= |es|
    requires Setting(n, s, es) && Kept(n, es, pos, out, 0) && Multiple(n, inner) && Finished(n, out, simple)
    ensures var r := BlockValue(s, es, pos, out, inner, 0, simple);
      Kept(n, es, r.pos, r.out, 0) && Finished(n, r.out, false)
    decreases |es| - pos, 1
  {
    hide Legal, Step, Kept, Named, Node, Finished, InSteps, Ready, SimpleKey, BlockPairs, Asked;
    Next(es, pos, Doc(base + [MapFrame(false)]));
    Steps(base, MapFrame(false), es[pos].kind);
    var before := out + if simple then [Tight(":")] else [IndentTo(inner), Compact(":")];
    var value := Node(s, es, pos, before, inner, 0, VALUE);
    if simple {
      Colon(n, es, pos, out, 0);
    } else {
      NewLine(n, es, pos, out, inner, ":");
    }
    NodeKeeps(n, s, es, pos, before, inner, 0, VALUE, base, MapFrame(false));
    NodeDone(s, es, pos, before, inner, 0, VALUE, base, MapFrame(false));
    BlockPairsKeeps(n, s, es, value.pos, value.out, inner, base);
  }

  // ----- Documents ---------------------------------------------------------------------

  /** What comes before a document, and behind it, is nothing for the rules. */
  lemma PutAll(n: Settings, es: seq<Event>, pos: nat, out: seq<Write>, more: seq<Write>)
    requires Kept(n, es, pos, out, 0) && Finished(n, out, false) && forall i :: 0 <= i < |more| ==> Quiet(n, more[i])
    ensures Kept(n, es, pos, out + more, 0) && Finished(n, out + more, false)
  {
    hide Kept, Quiet;
    FinishedIsLoose(n, out);
    PutQuiet(n, es, pos, out, more, 0);
    assert more == [] ==> out + more == out;
  }

  /** Some more marks, and what goes with them. */
  predicate PlainMark(n: Settings, w: Write) {
    match w
    case Indicator(_, _, _, _) => !IsOpening(w) && !IsClosing(w) && w != Tight(":") && w != Tight(",")
    case Indent(column) => Multiple(n, column)
    case TagText(_, _) => true
    case _ => false
  }

  lemma MarkRule(n: Settings, out: seq<Write>, w: Write)
    requires PlainMark(n, w) && Between(out)
    ensures Rule(n, out, w) && Between(out + [w])
  {
    Grown(out, w);
  }

  /** Between two nodes. */
  predicate Between(out: seq<Write>) {
    !Punctuated(out) && (out != [] && out[|out| - 1].ScalarText? ==> out[|out| - 1].breaks)
  }

  lemma KeptMarks(n: Settings, es: seq<Event>, pos: nat, out: seq<Write>, level: nat, marks: seq<Write>)
    requires KeptBut(n, es, pos, out, level, marks)
    ensures Marks(out) == marks
  {
  }

  lemma {:induction false} PutPlain(n: Settings, es: seq<Event>, pos: nat, out: seq<Write>, more: seq<Write>,
      marks: seq<Write>)
    requires KeptBut(n, es, pos, out, 0, marks) && Between(out) && forall i :: 0 <= i < |more| ==> PlainMark(n, more[i])
    ensures KeptBut(n, es, pos, out + more, 0, Marks(out + more)) && Between(out + more)
    decreases |more|
  {
    hide KeptBut, Rule, PlainMark, Between, IsMark, Marks;
    if more == [] {
      assert out + more == out;
      KeptMarks(n, es, pos, out, 0, marks);
    } else {
      var k := |more| - 1;
      var before := out + more[..k];
      PutPlain(n, es, pos, out, more[..k], marks);
      assert out + more == before + [more[k]];
      MarkRule(n, before, more[k]);
      PlainIs(n, more[k]);
      PutMark(n, es, pos, before, more[k], 0, Marks(before));
      KeptMarks(n, es, pos, out + more, 0,
        if IsMark(before, more[k]) then Marks(before) + [more[k]] else Marks(before));
    }
  }

  lemma PlainIs(n: Settings, w: Write)
    requires PlainMark(n, w)
    ensures !w.ScalarText? && !IsOpening(w) && !IsClosing(w)
  {
  }
  lemma {:induction false} MarksConcat(a: seq<Write>, b: seq<Write>)
    requires a != [] ==> a[|a| - 1] != TAG
    ensures Marks(a + b) == Marks(a) + Marks(b)
    decreases |b|
  {
    if b == [] {
      assert a + b == a;
    } else {
      var k := |b| - 1;
      MarksConcat(a, b[..k]);
      assert (a + b)[..|a| + k] == a + b[..k] && (a + b)[|a| + k] == b[k];
      assert k > 0 ==> (a + b[..k])[|a| + k - 1] == b[..k][k - 1];
    }
  }

  lemma OneMark(ws: seq<Write>, w: Write)
    ensures Marks(ws + [w]) == Marks(ws) + if IsMark(ws, w) then [w] else []
  {
    var all := ws + [w];
    assert all[..|all| - 1] == ws && all[|all| - 1] == w;
  }

  lemma TwoMarks(a: Write, b: Write)
    ensures Marks([a]) == if IsMark([], a) then [a] else []
    ensures Marks([a, b]) == Marks([a]) + if IsMark([a], b) then [b] else []
  {
    hide Marks, IsMark;
    NoMarks();
    OneMark([], a);
    OneMark([a], b);
    assert [] + [a] == [a] && [a] + [b] == [a, b];
  }

  lemma ThreeMarks(a: Write, b: Write, c: Write)
    ensures Marks([a, b, c]) == Marks([a, b]) + if IsMark([a, b], c) then [c] else []
  {
    hide Marks, IsMark;
    OneMark([a, b], c);
    assert [a, b] + [c] == [a, b, c];
  }

  lemma {:induction false} DirectivesMark(n: Settings, ds: seq<TagDirective>)
    requires Multiple(n, 0)
    ensures Marks(Directives(ds)) == Declared(ds) && PlainPart(n, Directives(ds))
  {
    hide Multiple, Marks, PlainPart;
    NoMarks();
    NoPart(n);
    if ds != [] {
      var before, last := Directives(ds[..|ds| - 1]), ds[|ds| - 1];
      var tag := TagText(last.handle, last.prefix);
      DirectivesMark(n, ds[..|ds| - 1]);
      DirectiveIs(n, tag);
      PlainParts(n, before, [TAG, tag, Indent(0)]);
    }
  }

  lemma NoPart(n: Settings)
    ensures PlainPart(n, [])
  {
  }

  lemma NoMarks()
    ensures Marks([]) == []
  {
  }

  function EndingWrites(s: Settings, e: Event, out: seq<Write>): seq<Write> {
    if s.pen(out).openEnded && (e.version != None || e.tagDirectives != []) then [Spaced("..."), Indent(0)] else []
  }

  function VersionWrites(e: Event): seq<Write> {
    if e.version != None then [YAML, Spaced("1.1"), Indent(0)] else []
  }

  function StartWrites(s: Settings, e: Event, first: bool): seq<Write> {
    if e.implicit && first && !s.canonical && e.version == None && e.tagDirectives == [] then []
    else if s.canonical then [Indent(0), DASHES, Indent(0)]
    else [Indent(0), DASHES]
  }

  /** What is written before a document: the end of one that was left open, the version, the directives and "---". */
  function HeadWrites(s: Settings, e: Event, out: seq<Write>, first: bool): seq<Write> {
    EndingWrites(s, e, out) + (VersionWrites(e) + (Directives(e.tagDirectives) + StartWrites(s, e, first)))
  }

  lemma HeadParts(s: Settings, e: Event, out: seq<Write>, first: bool)
    ensures Head(s, e, out, first) == out + HeadWrites(s, e, out, first)
  {
    hide Directives;
    NoDirectives(e, out);
    var a, b, c, d := EndingWrites(s, e, out), VersionWrites(e), Directives(e.tagDirectives), StartWrites(s, e, first);
    assert Versioned(s, e, out) == out + a + b;
    assert Head(s, e, out, first) == out + a + b + c + d;
    assert out + a + b + c + d == out + (a + (b + (c + d)));
  }

  /** Plain writes at the end of which no directive has just begun. */
  predicate PlainPart(n: Settings, ws: seq<Write>) {
    (forall w :: w in ws ==> PlainMark(n, w)) && (ws != [] ==> ws[|ws| - 1] == Indent(0) || ws[|ws| - 1] == DASHES)
  }

  lemma PlainParts(n: Settings, a: seq<Write>, b: seq<Write>)
    requires PlainPart(n, a) && PlainPart(n, b)
    ensures PlainPart(n, a + b) && Marks(a + b) == Marks(a) + Marks(b)
  {
    hide PlainMark, Marks;
    MarksConcat(a, b);
    assert b == [] ==> a + b == a;
  }

  lemma EndingIs(n: Settings)
    requires Multiple(n, 0)
    ensures var ws := [Spaced("..."), Indent(0)]; PlainPart(n, ws) && Marks(ws) == []
  {
    hide Marks, Multiple;
    TwoMarks(Spaced("..."), Indent(0));
  }

  lemma VersionIs(n: Settings)
    requires Multiple(n, 0)
    ensures var ws := [YAML, Spaced("1.1"), Indent(0)]; PlainPart(n, ws) && Marks(ws) == [YAML]
  {
    hide Marks, Multiple;
    TwoMarks(YAML, Spaced("1.1"));
    ThreeMarks(YAML, Spaced("1.1"), Indent(0));
  }

  lemma StartIs(n: Settings)
    requires Multiple(n, 0)
    ensures var ws := [Indent(0), DASHES]; PlainPart(n, ws) && Marks(ws) == [DASHES]
    ensures var ws := [Indent(0), DASHES, Indent(0)]; PlainPart(n, ws) && Marks(ws) == [DASHES]
  {
    hide Marks, Multiple;
    TwoMarks(Indent(0), DASHES);
    ThreeMarks(Indent(0), DASHES, Indent(0));
  }

  lemma DirectiveIs(n: Settings, tag: Write)
    requires Multiple(n, 0) && tag.TagText?
    ensures var ws := [TAG, tag, Indent(0)]; PlainPart(n, ws) && Marks(ws) == [TAG, tag]
  {
    hide Marks, Multiple;
    TwoMarks(TAG, tag);
    ThreeMarks(TAG, tag, Indent(0));
  }

  lemma SmallParts(n: Settings, s: Settings, e: Event, out: seq<Write>, first: bool)
    requires Multiple(n, 0)
    ensures PlainPart(n, EndingWrites(s, e, out)) && Marks(EndingWrites(s, e, out)) == []
    ensures PlainPart(n, VersionWrites(e)) && Marks(VersionWrites(e)) == if e.version != None then [YAML] else []
    ensures PlainPart(n, StartWrites(s, e, first))
    ensures Marks(StartWrites(s, e, first)) ==
      if first && e.implicit && !s.canonical && e.version == None && e.tagDirectives == [] then [] else [DASHES]
  {
    hide Marks, Multiple, PlainMark;
    NoMarks();
    EndingIs(n);
    VersionIs(n);
    StartIs(n);
  }

  lemma HeadMarks(n: Settings, s: Settings, e: Event, out: seq<Write>, first: bool)
    requires n == s.(directives := [])
    ensures var more := HeadWrites(s, e, out, first);
      && PlainPart(n, more) && Marks(more) == MarksOf(n, e, first)
      && (more == [] ==> first)
  {
    hide Marks, Directives, PlainPart, EndingWrites, VersionWrites, Declared, Multiple;
    var a, b, c, d := EndingWrites(s, e, out), VersionWrites(e), Directives(e.tagDirectives), StartWrites(s, e, first);
    FirstColumn(n);
    DirectivesMark(n, e.tagDirectives);
    SmallParts(n, s, e, out, first);
    PlainParts(n, c, d);
    PlainParts(n, b, c + d);
    PlainParts(n, a, b + (c + d));
  }

  lemma FirstColumn(n: Settings)
    ensures Multiple(n, 0)
  {
  }

  lemma HeadKeeps(n: Settings, s: Settings, es: seq<Event>, pos: nat, out: seq<Write>, first: bool)
    requires pos < |es| && es[pos].kind == DocumentStart && n == s.(directives := [])
    requires Kept(n, es, pos, out, 0) && Finished(n, out, false) && (first ==> out == []) && (first <==> pos == 1)
    ensures var head := Head(s, es[pos], out, first);
      Kept(n, es, pos + 1, head, 0) && Ready(n, head, 0) && !Asked(head)
  {
    hide KeptBut, Head, HeadWrites, Marks, Wraps, PlainMark, MarksOf, MarksFor;
    var head := Head(s, es[pos], out, first);
    var more := HeadWrites(s, es[pos], out, first);
    HeadParts(s, es[pos], out, first);
    HeadMarks(n, s, es[pos], out, first);
    PutPlain(n, es, pos, out, more, MarksFor(n, es, pos));
    KeptMarks(n, es, pos, out, 0, MarksFor(n, es, pos));
    MarksConcat(out, more);
    PassStart(n, es, pos, head);
    if more == [] {
      assert head == out;
    } else {
      assert head[|head| - 1] == more[|more| - 1];
    }
  }

  lemma PassStart(n: Settings, es: seq<Event>, pos: nat, out: seq<Write>)
    requires pos < |es| && es[pos].kind == DocumentStart
    requires KeptBut(n, es, pos, out, 0, MarksFor(n, es, pos) + MarksOf(n, es[pos], pos == 1))
    ensures Kept(n, es, pos + 1, out, 0)
  {
    hide Ruled, Suited, Depth, Brackets, Texts, Marks, MarksOf;
    OneMore(es, pos);
  }

  lemma NoDirectives(e: Event, out: seq<Write>)
    ensures e.tagDirectives == [] ==> out + Directives(e.tagDirectives) == out
  {
  }

  ghost predicate NamedHandles(es: seq<Event>) {
    forall e :: e in es && e.kind == DocumentStart ==> AllHandles(e.tagDirectives)
  }

  lemma {:induction false} HandlesAdded(ds: seq<TagDirective>, more: seq<TagDirective>)
    requires AllHandles(ds) && AllHandles(more)
    ensures AllHandles(AddMissing(ds, more))
    decreases |more|
  {
    if more != [] {
      var ds' := if HasHandle(ds, more[0].handle) then ds else ds + [more[0]];
      HandlesAdded(ds', more[1..]);
      assert AddMissing(ds, more) == AddMissing(ds', more[1..]);
    }
  }

  /** The settings inside a document. */
  lemma DocumentSetting(n: Settings, s: Settings, es: seq<Event>, e: Event)
    requires Setting(n, s, es) && NamedHandles(es) && e in es && e.kind == DocumentStart
    ensures Setting(n, InDocument(s, e), es)
  {
    hide AddMissing, Named;
    HandlesAdded(e.tagDirectives, DEFAULT_DIRECTIVES);
  }

  lemma {:induction false} DocumentsKeep(n: Settings, s: Settings, es: seq<Event>, pos: nat, out: seq<Write>,
      first: bool)
    requires Legal(es, pos, Stream) && Setting(n, s, es) && NamedHandles(es) && s.directives == []
    requires Kept(n, es, pos, out, 0) && Finished(n, out, false) && (first ==> out == []) && (first <==> pos == 1)
    ensures Kept(n, es, |es|, Documents(s, es, pos, out, first).out, 0)
    decreases |es| - pos
  {
    hide Legal, Kept, Finished, Setting, Documents, Root, Head, Ready, NamedHandles, Asked;
    StreamGoesOn(es, pos);
    if es[pos].kind == StreamEnd {
      StreamIsOver(s, es, pos, out, first);
      AtStreamEnd(es, pos);
      PutAll(n, es, pos, out, [Spaced("..."), Indent(0)]);
      PassHere(n, es, pos, Documents(s, es, pos, out, first).out);
    } else {
      OneDocument(s, es, pos, out, first);
      var r := Root(s, es, pos, out, first);
      SettingIs(n, s, es);
      HeadKeeps(n, s, es, pos, out, first);
      RootKeeps(n, s, es, pos, out, first);
      FootKeeps(n, es, r.pos, r.out);
      DocumentsKeep(n, s.(directives := []), es, r.pos + 1, Footed(es[r.pos], r.out), false);
    }
  }

  lemma SettingIs(n: Settings, s: Settings, es: seq<Event>)
    requires Setting(n, s, es)
    ensures n == s.(directives := []) && Setting(n, s.(directives := []), es)
  {
    hide Named;
  }

  lemma PassHere(n: Settings, es: seq<Event>, pos: nat, out: seq<Write>)
    requires Kept(n, es, pos, out, 0) && pos < |es|
    requires es[pos].kind == DocumentEnd || es[pos].kind == StreamEnd
    ensures Kept(n, es, pos + 1, out, 0)
  {
    hide Kept;
    Pass(n, es, pos, out, 0);
  }

  lemma RootKeeps(n: Settings, s: Settings, es: seq<Event>, pos: nat, out: seq<Write>, first: bool)
    requires pos + 1 < |es| && Legal(es, pos + 1, Doc([DocFrame(false)])) && IsNode(es[pos + 1].kind)
    requires Setting(n, s, es) && NamedHandles(es) && es[pos].kind == DocumentStart
    requires var head := Head(s, es[pos], out, first);
      Kept(n, es, pos + 1, head, 0) && Ready(n, head, 0) && !Asked(head)
    ensures var r := Root(s, es, pos, out, first); Kept(n, es, r.pos, r.out, 0) && Finished(n, r.out, false)
  {
    hide Legal, Kept, Finished, Setting, Head, Ready, NamedHandles, InDocument, Node, SimpleKey, Asked;
    DocumentSetting(n, s, es, es[pos]);
    assert [] + [DocFrame(false)] == [DocFrame(false)];
    RootMayStart(n, s, es);
    NodeKeeps(n, InDocument(s, es[pos]), es, pos + 1, Head(s, es[pos], out, first), -1, 0, ROOT, [], DocFrame(false));
  }

  lemma RootMayStart(n: Settings, s: Settings, es: seq<Event>)
    requires Setting(n, s, es)
    ensures Stepped(n, -1)
  {
  }

  lemma FootKeeps(n: Settings, es: seq<Event>, pos: nat, out: seq<Write>)
    requires pos < |es| && es[pos].kind == DocumentEnd && Kept(n, es, pos, out, 0) && Finished(n, out, false)
    ensures Kept(n, es, pos + 1, Footed(es[pos], out), 0) && Finished(n, Footed(es[pos], out), false)
  {
    hide Kept, Finished;
    PutAll(n, es, pos, out, [Indent(0)]);
    PutAll(n, es, pos, out + [Indent(0)], if es[pos].implicit then [] else [Spaced("..."), Indent(0)]);
    PassHere(n, es, pos, Footed(es[pos], out));
  }

  /** Whatever the printer writes for a whole stream keeps to the rules. */
  lemma StreamKeeps(s: Settings, es: seq<Event>)
    requires Run(YamlEvents.Start, Kinds(es)) == End && Named(es) && NamedHandles(es) && s.directives == []
    ensures WellWritten(Normal(s), es, Layout(s, es).out)
  {
    hide Run, Documents;
    var n := Normal(s);
    assert es[0..] == es;
    Next(es, 0, YamlEvents.Start);
    NothingWritten(n, es);
    DocumentsKeep(n, n, es, 1, [], true);
    assert es[..|es|] == es;
  }

  lemma NothingWritten(n: Settings, es: seq<Event>)
    requires es != [] && es[0].kind == StreamStart
    ensures Kept(n, es, 1, [], 0) && Finished(n, [], false)
  {
    assert es[..1][..0] == [];
  }
}
