/** What the YAML emitter writes, as a recursive printer of event streams.
  *
  * The emitter of emitterc.go handles one event at a time and keeps what is left to do on two
  * stacks. Here a node, the items of a sequence and the pairs of a mapping are functions that
  * call each other, and indentation and flow level are arguments. YamlEmitter proves that the
  * two write the same. */
module YamlLayout {
  import opened Options
  import opened YamlEvents

  // ----- Writes ------------------------------------------------------------------------

  /** One call of a function that writes, with its arguments. For an indicator: does it need a
    * space before it, does it count as one, and does it keep the line in its indentation? */
  datatype Write =
    | Indicator(text: string, spaced: bool, space: bool, indentation: bool)
    | Indent(column: int)
    | Anchor(name: string, alias: bool)
    | TagText(handle: string, suffix: string)
    | ScalarText(value: string, style: Style, indent: int, breaks: bool, root: bool)

  /** Where the writes so far leave the pen. */
  datatype Pen = Pen(column: int, indention: bool, openEnded: bool)

  /** What the analysis of a scalar's text finds. */
  datatype ScalarData = ScalarData(
    multiline: bool, flowPlainAllowed: bool, blockPlainAllowed: bool, singleQuotedAllowed: bool, blockAllowed: bool)

  /** The settings of an emitter and the tag directives of the document. How writes move the
    * pen, and what the analysis finds, are arbitrary functions. */
  datatype Settings = Settings(
    canonical: bool, analysis: string -> ScalarData, pen: seq<Write> -> Pen,
    bestIndent: int, bestWidth: int, directives: seq<TagDirective>)

  /** What `emit_node` is told of the place of a node. */
  datatype Place = Place(root: bool, mapping: bool, simpleKey: bool)

  /** What is written, and the position of the next event. */
  datatype Printed = Printed(out: seq<Write>, pos: nat)

  const ITEM := Place(false, false, false)
  const VALUE := Place(false, true, false)
  const ROOT := Place(true, false, false)

  function KEY(simple: bool): Place {
    Place(false, true, simple)
  }

  /** Punctuation that follows immediately. */
  function Tight(text: string): Write {
    Indicator(text, false, false, false)
  }

  /** An indicator of its own. */
  function Spaced(text: string): Write {
    Indicator(text, true, false, false)
  }

  function Opening(text: string): Write {
    Indicator(text, true, true, false)
  }

  /** An indicator behind which block content may go on in the same line. */
  function Compact(text: string): Write {
    Indicator(text, true, false, true)
  }

  function IndentTo(indent: int): Write {
    Indent(if indent < 0 then 0 else indent)
  }

  /** The indentation inside a collection. */
  function Inner(s: Settings, indent: int, flow: bool, indentless: bool): int {
    if indent < 0 then (if flow then s.bestIndent else 0)
    else if indentless then indent
    else indent + s.bestIndent
  }

  // ----- The properties of a node ------------------------------------------------------

  predicate IsNode(k: EventKind) {
    k == Alias || k == Scalar || k == SequenceStart || k == MappingStart
  }

  function AnchorText(e: Event): string {
    if e.anchor.Some? then e.anchor.value else ""
  }

  /** A tag as the handle of a directive and the rest. */
  datatype Tag = Tag(handle: string, suffix: string)

  const NO_TAG := Tag("", "")

  function Split(directives: seq<TagDirective>, tag: string): Tag {
    if directives == [] then Tag("", tag)
    else if directives[0].prefix <= tag then Tag(directives[0].handle, tag[|directives[0].prefix|..])
    else Split(directives[1..], tag)
  }

  /** Is the tag of the event written? */
  predicate TagCounts(canonical: bool, e: Event) {
    e.tag != "" && (canonical || (!e.implicit && (e.kind != Scalar || !e.quotedImplicit)))
  }

  function TagOf(s: Settings, e: Event): Tag {
    if TagCounts(s.canonical, e) then Split(s.directives, e.tag) else NO_TAG
  }

  function Anchoring(e: Event): seq<Write> {
    var name := AnchorText(e);
    if name == "" then []
    else [Spaced(if e.kind == Alias then "*" else "&"), Anchor(name, e.kind == Alias)]
  }

  function Tagging(tag: Tag): seq<Write> {
    if tag == NO_TAG then [] else [TagText(tag.handle, tag.suffix)]
  }

  // ----- Scalars -----------------------------------------------------------------------

  /** The style of a scalar: the one asked for, or else the first that is allowed of single
    * and double quotes. */
  function StyleOf(s: Settings, e: Event, flow: bool, simpleKey: bool): Style {
    var data := s.analysis(e.value);
    var quoted := if data.singleQuotedAllowed then SingleQuoted else DoubleQuoted;
    if s.canonical || (simpleKey && data.multiline) then DoubleQuoted else
    match e.style
    case AnyStyle | Plain => if PlainAllowed(s, e, flow, simpleKey) then Plain else quoted
    case SingleQuoted => quoted
    case Literal | Folded => if data.blockAllowed && !flow && !simpleKey then e.style else DoubleQuoted
    case _ => e.style
  }

  predicate PlainAllowed(s: Settings, e: Event, flow: bool, simpleKey: bool) {
    var data := s.analysis(e.value);
    && (if flow then data.flowPlainAllowed else data.blockPlainAllowed)
    && (e.value == "" ==> !flow && !simpleKey)
    && (TagOf(s, e) == NO_TAG ==> e.implicit)
  }

  /** A quoted scalar that is a string only because it is quoted needs no tag; one that is not
    * gets the tag that says so. */
  function ScalarTag(s: Settings, e: Event, style: Style): Tag {
    if TagOf(s, e) == NO_TAG && !e.quotedImplicit && style != Plain then Tag("!", "") else TagOf(s, e)
  }

  function ScalarWrites(s: Settings, e: Event, indent: int, level: nat, place: Place): seq<Write> {
    var style := StyleOf(s, e, level > 0, place.simpleKey);
    Anchoring(e) + Tagging(ScalarTag(s, e, style))
      + [ScalarText(e.value, style, Inner(s, indent, true, false), !place.simpleKey, place.root)]
  }

  // ----- Collections -------------------------------------------------------------------

  /** The kind of the event that ends a collection. */
  function Closer(k: EventKind): EventKind {
    if k == SequenceStart then SequenceEnd else MappingEnd
  }

  /** Does a collection that is empty start at `pos`? */
  predicate EmptyAt(es: seq<Event>, pos: nat)
    requires pos < |es|
  {
    pos + 1 < |es| && es[pos + 1].kind == Closer(es[pos].kind)
  }

  predicate InFlow(s: Settings, es: seq<Event>, pos: nat, level: nat)
    requires pos < |es|
  {
    level > 0 || s.canonical || es[pos].style == Flow || EmptyAt(es, pos)
  }

  /** Can the node at `pos` be a key without an indicator? */
  predicate SimpleKey(s: Settings, es: seq<Event>, pos: nat)
    requires pos < |es|
  {
    var e := es[pos];
    var tag := TagOf(s, e);
    match e.kind
    case Alias => |AnchorText(e)| <= 128
    case Scalar =>
      && !s.analysis(e.value).multiline
      && |AnchorText(e)| + |tag.handle| + |tag.suffix| + |e.value| <= 128
    case SequenceStart | MappingStart =>
      EmptyAt(es, pos) && |AnchorText(e)| + |tag.handle| + |tag.suffix| <= 128
    case _ => false
  }

  /** A new line, if the canonical form or the width asks for one. */
  function Wrapped(s: Settings, out: seq<Write>, indent: int): seq<Write> {
    if s.canonical || s.pen(out).column > s.bestWidth then out + [IndentTo(indent)] else out
  }

  /** What is written before an item of a flow collection. */
  function Separated(s: Settings, out: seq<Write>, indent: int, first: bool): seq<Write> {
    Wrapped(s, if first then out else out + [Tight(",")], indent)
  }

  /** What is written at the end of a flow collection. */
  function Closed(s: Settings, out: seq<Write>, closing: string, indent: int, first: bool): seq<Write> {
    ClosedWith(out, closing, s.canonical && !first, indent)
  }

  function ClosedWith(out: seq<Write>, closing: string, comma: bool, indent: int): seq<Write> {
    var before := if comma then out + [Tight(","), IndentTo(indent)] else out;
    if closing == "" then before else before + [Tight(closing)]
  }

  /** The node at `pos`, inside an indentation and that many flow collections. */
  function Node(s: Settings, es: seq<Event>, pos: nat, out: seq<Write>, indent: int, level: nat,
      place: Place): (r: Printed)
    ensures pos <= r.pos && (pos <= |es| ==> r.pos <= |es|)
    ensures pos < |es| && IsNode(es[pos].kind) ==> pos < r.pos
    decreases if pos <= |es| then |es| - pos else 0, 0
  {
    if pos >= |es| || !IsNode(es[pos].kind) then Printed(out, pos) else
    var e := es[pos];
    match e.kind
    case Alias => Printed(out + Anchoring(e), pos + 1)
    case Scalar => Printed(out + ScalarWrites(s, e, indent, level, place), pos + 1)
    case _ => Collection(s, es, pos + 1, out + Anchoring(e) + Tagging(TagOf(s, e)), e.kind == SequenceStart,
      InFlow(s, es, pos, level), indent, level, place.mapping)
  }

  /** A collection whose start and properties are behind. */
  function Collection(s: Settings, es: seq<Event>, pos: nat, out: seq<Write>, sequence: bool, flow: bool, indent: int,
      level: nat, mapping: bool): (r: Printed)
    ensures pos <= r.pos && (pos <= |es| ==> r.pos <= |es|)
    decreases if pos <= |es| then |es| - pos else 0, 2
  {
    if flow then
      var inner := Inner(s, indent, true, false);
      if sequence then FlowItems(s, es, pos, out + [Opening("[")], indent, inner, level + 1, true)
      else FlowPairs(s, es, pos, out + [Opening("{")], indent, inner, level + 1, true)
    else if sequence then
      BlockItems(s, es, pos, out, Inner(s, indent, false, mapping && !s.pen(out).indention), level)
    else
      BlockPairs(s, es, pos, out, Inner(s, indent, false, false), level)
  }

  function FlowItems(s: Settings, es: seq<Event>, pos: nat, out: seq<Write>, outer: int, inner: int, level: nat,
      first: bool): (r: Printed)
    ensures pos <= r.pos && (pos <= |es| ==> r.pos <= |es|)
    decreases if pos <= |es| then |es| - pos else 0, 1
  {
    if pos >= |es| then Printed(out, pos) else
    if es[pos].kind == SequenceEnd then Printed(Closed(s, out, "]", outer, first), pos + 1) else
    if !IsNode(es[pos].kind) then Printed(out, pos) else
    var item := Node(s, es, pos, Separated(s, out, inner, first), inner, level, ITEM);
    FlowItems(s, es, item.pos, item.out, outer, inner, level, false)
  }

  function FlowPairs(s: Settings, es: seq<Event>, pos: nat, out: seq<Write>, outer: int, inner: int, level: nat,
      first: bool): (r: Printed)
    ensures pos <= r.pos && (pos <= |es| ==> r.pos <= |es|)
    decreases if pos <= |es| then |es| - pos else 0, 1
  {
    if pos >= |es| then Printed(out, pos) else
    if es[pos].kind == MappingEnd then Printed(Closed(s, out, "}", outer, first), pos + 1) else
    if !IsNode(es[pos].kind) then Printed(out, pos) else
    var before := Separated(s, out, inner, first);
    var simple := !s.canonical && SimpleKey(s, es, pos);
    var key := Node(s, es, pos, if simple then before else before + [Spaced("?")], inner, level, KEY(simple));
    FlowValue(s, es, key.pos, key.out, outer, inner, level, simple)
  }

  function FlowValue(s: Settings, es: seq<Event>, pos: nat, out: seq<Write>, outer: int, inner: int, level: nat,
      simple: bool): (r: Printed)
    ensures pos <= r.pos && (pos <= |es| ==> r.pos <= |es|)
    decreases if pos <= |es| then |es| - pos else 0, 1
  {
    if pos >= |es| || !IsNode(es[pos].kind) then Printed(out, pos) else
    var before := if simple then out + [Tight(":")] else Wrapped(s, out, inner) + [Spaced(":")];
    var value := Node(s, es, pos, before, inner, level, VALUE);
    FlowPairs(s, es, value.pos, value.out, outer, inner, level, false)
  }

  function BlockItems(s: Settings, es: seq<Event>, pos: nat, out: seq<Write>, inner: int, level: nat): (r: Printed)
    ensures pos <= r.pos && (pos <= |es| ==> r.pos <= |es|)
    decreases if pos <= |es| then |es| - pos else 0, 1
  {
    if pos >= |es| then Printed(out, pos) else
    if es[pos].kind == SequenceEnd then Printed(out, pos + 1) else
    if !IsNode(es[pos].kind) then Printed(out, pos) else
    var item := Node(s, es, pos, out + [IndentTo(inner), Compact("-")], inner, level, ITEM);
    BlockItems(s, es, item.pos, item.out, inner, level)
  }

  function BlockPairs(s: Settings, es: seq<Event>, pos: nat, out: seq<Write>, inner: int, level: nat): (r: Printed)
    ensures pos <= r.pos && (pos <= |es| ==> r.pos <= |es|)
    decreases if pos <= |es| then |es| - pos else 0, 1
  {
    if pos >= |es| then Printed(out, pos) else
    if es[pos].kind == MappingEnd then Printed(out, pos + 1) else
    if !IsNode(es[pos].kind) then Printed(out, pos) else
    var simple := SimpleKey(s, es, pos);
    var before := out + [IndentTo(inner)];
    var key := Node(s, es, pos, if simple then before else before + [Compact("?")], inner, level, KEY(simple));
    BlockValue(s, es, key.pos, key.out, inner, level, simple)
  }

  function BlockValue(s: Settings, es: seq<Event>, pos: nat, out: seq<Write>, inner: int, level: nat,
      simple: bool): (r: Printed)
    ensures pos <= r.pos && (pos <= |es| ==> r.pos <= |es|)
    decreases if pos <= |es| then |es| - pos else 0, 1
  {
    if pos >= |es| || !IsNode(es[pos].kind) then Printed(out, pos) else
    var before := out + if simple then [Tight(":")] else [IndentTo(inner), Compact(":")];
    var value := Node(s, es, pos, before, inner, level, VALUE);
    BlockPairs(s, es, value.pos, value.out, inner, level)
  }

  // ----- Documents ---------------------------------------------------------------------

  /** The directives `more` are added, but for handles that there are already. */
  function AddMissing(ds: seq<TagDirective>, more: seq<TagDirective>): seq<TagDirective>
    decreases |more|
  {
    if more == [] then ds
    else AddMissing(if HasHandle(ds, more[0].handle) then ds else ds + [more[0]], more[1..])
  }

  function Directives(ds: seq<TagDirective>): seq<Write> {
    if ds == [] then []
    else Directives(ds[..|ds| - 1]) + [Spaced("%TAG"), TagText(ds[|ds| - 1].handle, ds[|ds| - 1].prefix), Indent(0)]
  }

  /** An open-ended document must be ended before the directives of the next one. */
  function Versioned(s: Settings, e: Event, out: seq<Write>): seq<Write> {
    var ended :=
      if s.pen(out).openEnded && (e.version != None || e.tagDirectives != []) then out + [Spaced("..."), Indent(0)]
          else out;
    if e.version != None then ended + [Spaced("%YAML"), Spaced("1.1"), Indent(0)] else ended
  }

  function Started(s: Settings, out: seq<Write>): seq<Write> {
    var start := out + [Indent(0), Spaced("---")];
    if s.canonical then start + [Indent(0)] else start
  }

  /** What is written at the start of a document. Only the first one can do without an indicator,
    * if it has no directives. */
  function Head(s: Settings, e: Event, out: seq<Write>, first: bool): seq<Write> {
    var directives := Versioned(s, e, out) + Directives(e.tagDirectives);
    if e.implicit && first && !s.canonical && e.version == None && e.tagDirectives == [] then directives
    else Started(s, directives)
  }

  /** Documents, and the end of the stream. */
  function Documents(s: Settings, es: seq<Event>, pos: nat, out: seq<Write>, first: bool): Printed
    decreases if pos <= |es| then |es| - pos else 0
  {
    if pos >= |es| then Printed(out, pos) else
    match es[pos].kind
    case DocumentStart =>
      Body(s.(directives := AddMissing(es[pos].tagDirectives, DEFAULT_DIRECTIVES)), es, pos + 1,
          Head(s, es[pos], out, first))
    case StreamEnd => Printed(if s.pen(out).openEnded then out + [Spaced("..."), Indent(0)] else out, pos + 1)
    case _ => Printed(out, pos)
  }

  /** The root node of a document. */
  function Body(s: Settings, es: seq<Event>, pos: nat, out: seq<Write>): Printed
    decreases if pos <= |es| then |es| - pos else 0
  {
    if pos >= |es| || !IsNode(es[pos].kind) then Printed(out, pos) else
    var root := Node(s, es, pos, out, -1, 0, ROOT);
    Foot(s, es, root.pos, root.out)
  }

  function Foot(s: Settings, es: seq<Event>, pos: nat, out: seq<Write>): Printed
    decreases if pos <= |es| then |es| - pos else 0
  {
    if pos >= |es| || es[pos].kind != DocumentEnd then Printed(out, pos) else
    var end := if es[pos].implicit then [] else [Spaced("..."), Indent(0)];
    Documents(s.(directives := []), es, pos + 1, out + [Indent(0)] + end, false)
  }

  /** Indentation and width within their limits. */
  function Normal(s: Settings): Settings {
    var indent := if 2 <= s.bestIndent <= 9 then s.bestIndent else 2;
    s.(bestIndent := indent,
       bestWidth := if s.bestWidth < 0 then 0x7FFF_FFFF else if s.bestWidth <= indent * 2 then 80 else s.bestWidth)
  }

  /** A stream, up to the first event that is not legal. */
  function Layout(s: Settings, es: seq<Event>): Printed {
    if es == [] || es[0].kind != StreamStart then Printed([], 0) else Documents(Normal(s), es, 1, [], true)
  }

  // ----- Indentation -------------------------------------------------------------------

  /** Every scalar is written with room for an indented line. */
  predicate Deep(ws: seq<Write>) {
    forall i :: 0 <= i < |ws| && ws[i].ScalarText? ==> ws[i].indent >= 2
  }

  /** The settings are within their limits, and the indentation is one that occurs. */
  predicate Roomy(s: Settings, indent: int) {
    s.bestIndent >= 2 && indent >= -1
  }

  lemma NoText(out: seq<Write>, more: seq<Write>)
    requires forall i :: 0 <= i < |more| ==> !more[i].ScalarText?
    ensures Deep(out + more) <==> Deep(out)
  {
    if Deep(out + more) {
      assert forall i :: 0 <= i < |out| ==> out[i] == (out + more)[i];
    }
  }

  lemma PropertiesHaveNoText(out: seq<Write>, e: Event, tag: Tag)
    ensures Deep(out + Anchoring(e) + Tagging(tag)) <==> Deep(out)
  {
    NoText(out, Anchoring(e));
    NoText(out + Anchoring(e), Tagging(tag));
  }

  lemma ScalarDeep(s: Settings, e: Event, out: seq<Write>, indent: int, level: nat, place: Place)
    requires Deep(out) && Roomy(s, indent)
    ensures Deep(out + ScalarWrites(s, e, indent, level, place))
  {
    hide StyleOf, ScalarTag, Anchoring, Tagging;
    var style := StyleOf(s, e, level > 0, place.simpleKey);
    var before := out + Anchoring(e) + Tagging(ScalarTag(s, e, style));
    var text := ScalarText(e.value, style, Inner(s, indent, true, false), !place.simpleKey, place.root);
    PropertiesHaveNoText(out, e, ScalarTag(s, e, style));
    assert out + ScalarWrites(s, e, indent, level, place) == before + [text];
  }

  lemma {:induction false} NodeDeep(s: Settings, es: seq<Event>, pos: nat, out: seq<Write>, indent: int, level: nat,
      place: Place)
    requires Deep(out) && Roomy(s, indent)
    ensures Deep(Node(s, es, pos, out, indent, level, place).out)
    decreases if pos <= |es| then |es| - pos else 0, 0
  {
    hide Deep, Collection, ScalarWrites, Anchoring, Tagging, TagOf, InFlow;
    if pos < |es| && IsNode(es[pos].kind) {
      var e := es[pos];
      if e.kind == Alias {
        AnchorHasNoText(out, e);
      } else if e.kind == Scalar {
        ScalarDeep(s, e, out, indent, level, place);
      } else {
        PropertiesHaveNoText(out, e, TagOf(s, e));
        CollectionDeep(s, es, pos + 1, out + Anchoring(e) + Tagging(TagOf(s, e)), e.kind == SequenceStart,
          InFlow(s, es, pos, level), indent, level, place.mapping);
      }
    }
  }

  lemma AnchorHasNoText(out: seq<Write>, e: Event)
    ensures Deep(out + Anchoring(e)) <==> Deep(out)
  {
    NoText(out, Anchoring(e));
  }

  lemma {:induction false} CollectionDeep(s: Settings, es: seq<Event>, pos: nat, out: seq<Write>, sequence: bool,
      flow: bool, indent: int, level: nat, mapping: bool)
    requires Deep(out) && Roomy(s, indent)
    ensures Deep(Collection(s, es, pos, out, sequence, flow, indent, level, mapping).out)
    decreases if pos <= |es| then |es| - pos else 0, 2
  {
    hide Deep, FlowItems, FlowPairs, BlockItems, BlockPairs;
    var inner := Inner(s, indent, true, false);
    NoText(out, [Opening("[")]);
    NoText(out, [Opening("{")]);
    if flow {
      if sequence {
        FlowItemsDeep(s, es, pos, out + [Opening("[")], indent, inner, level + 1, true);
      } else {
        FlowPairsDeep(s, es, pos, out + [Opening("{")], indent, inner, level + 1, true);
      }
    } else if sequence {
      BlockItemsDeep(s, es, pos, out, Inner(s, indent, false, mapping && !s.pen(out).indention), level);
    } else {
      BlockPairsDeep(s, es, pos, out, Inner(s, indent, false, false), level);
    }
  }

  lemma SeparatedDeep(s: Settings, out: seq<Write>, indent: int, first: bool)
    ensures Deep(Separated(s, out, indent, first)) <==> Deep(out)
    ensures Deep(Wrapped(s, out, indent)) <==> Deep(out)
  {
    hide Deep;
    NoText(out, [Tight(",")]);
    NoText(out, [IndentTo(indent)]);
    NoText(out + [Tight(",")], [IndentTo(indent)]);
  }

  lemma ClosedDeep(s: Settings, out: seq<Write>, closing: string, indent: int, first: bool)
    ensures Deep(Closed(s, out, closing, indent, first)) <==> Deep(out)
  {
    hide Deep;
    var comma := out + [Tight(","), IndentTo(indent)];
    NoText(out, [Tight(","), IndentTo(indent)]);
    NoText(out, [Tight(closing)]);
    NoText(comma, [Tight(closing)]);
  }

  lemma {:induction false} FlowItemsDeep(s: Settings, es: seq<Event>, pos: nat, out: seq<Write>, outer: int,
      inner: int, level: nat, first: bool)
    requires Deep(out) && Roomy(s, inner)
    ensures Deep(FlowItems(s, es, pos, out, outer, inner, level, first).out)
    decreases if pos <= |es| then |es| - pos else 0, 1
  {
    hide Deep, Node, Separated, Closed;
    ClosedDeep(s, out, "]", outer, first);
    SeparatedDeep(s, out, inner, first);
    if pos < |es| && IsNode(es[pos].kind) {
      var item := Node(s, es, pos, Separated(s, out, inner, first), inner, level, ITEM);
      NodeDeep(s, es, pos, Separated(s, out, inner, first), inner, level, ITEM);
      FlowItemsDeep(s, es, item.pos, item.out, outer, inner, level, false);
    }
  }

  lemma {:induction false} FlowPairsDeep(s: Settings, es: seq<Event>, pos: nat, out: seq<Write>, outer: int,
      inner: int, level: nat, first: bool)
    requires Deep(out) && Roomy(s, inner)
    ensures Deep(FlowPairs(s, es, pos, out, outer, inner, level, first).out)
    decreases if pos <= |es| then |es| - pos else 0, 1
  {
    hide Deep, Node, Separated, Closed, SimpleKey, FlowValue;
    ClosedDeep(s, out, "}", outer, first);
    SeparatedDeep(s, out, inner, first);
    if pos < |es| && IsNode(es[pos].kind) {
      var line := Separated(s, out, inner, first);
      var simple := !s.canonical && SimpleKey(s, es, pos);
      var before := if simple then line else line + [Spaced("?")];
      var key := Node(s, es, pos, before, inner, level, KEY(simple));
      NoText(line, [Spaced("?")]);
      NodeDeep(s, es, pos, before, inner, level, KEY(simple));
      FlowValueDeep(s, es, key.pos, key.out, outer, inner, level, simple);
    }
  }

  lemma {:induction false} FlowValueDeep(s: Settings, es: seq<Event>, pos: nat, out: seq<Write>, outer: int,
      inner: int, level: nat, simple: bool)
    requires Deep(out) && Roomy(s, inner)
    ensures Deep(FlowValue(s, es, pos, out, outer, inner, level, simple).out)
    decreases if pos <= |es| then |es| - pos else 0, 1
  {
    hide Deep, Node, Wrapped, FlowPairs;
    if pos < |es| && IsNode(es[pos].kind) {
      var line := Wrapped(s, out, inner);
      var before := if simple then out + [Tight(":")] else line + [Spaced(":")];
      var value := Node(s, es, pos, before, inner, level, VALUE);
      SeparatedDeep(s, out, inner, true);
      NoText(out, [Tight(":")]);
      NoText(line, [Spaced(":")]);
      NodeDeep(s, es, pos, before, inner, level, VALUE);
      FlowPairsDeep(s, es, value.pos, value.out, outer, inner, level, false);
    }
  }

  lemma {:induction false} BlockItemsDeep(s: Settings, es: seq<Event>, pos: nat, out: seq<Write>, inner: int,
      level: nat)
    requires Deep(out) && Roomy(s, inner)
    ensures Deep(BlockItems(s, es, pos, out, inner, level).out)
    decreases if pos <= |es| then |es| - pos else 0, 1
  {
    hide Deep, Node;
    if pos < |es| && IsNode(es[pos].kind) {
      var before := out + [IndentTo(inner), Compact("-")];
      var item := Node(s, es, pos, before, inner, level, ITEM);
      NoText(out, [IndentTo(inner), Compact("-")]);
      NodeDeep(s, es, pos, before, inner, level, ITEM);
      BlockItemsDeep(s, es, item.pos, item.out, inner, level);
    }
  }

  lemma {:induction false} BlockPairsDeep(s: Settings, es: seq<Event>, pos: nat, out: seq<Write>, inner: int,
      level: nat)
    requires Deep(out) && Roomy(s, inner)
    ensures Deep(BlockPairs(s, es, pos, out, inner, level).out)
    decreases if pos <= |es| then |es| - pos else 0, 1
  {
    hide Deep, Node, SimpleKey, BlockValue;
    if pos < |es| && IsNode(es[pos].kind) {
      var line := out + [IndentTo(inner)];
      var simple := SimpleKey(s, es, pos);
      var before := if simple then line else line + [Compact("?")];
      var key := Node(s, es, pos, before, inner, level, KEY(simple));
      NoText(out, [IndentTo(inner)]);
      NoText(line, [Compact("?")]);
      NodeDeep(s, es, pos, before, inner, level, KEY(simple));
      BlockValueDeep(s, es, key.pos, key.out, inner, level, simple);
    }
  }

  lemma {:induction false} BlockValueDeep(s: Settings, es: seq<Event>, pos: nat, out: seq<Write>, inner: int,
      level: nat, simple: bool)
    requires Deep(out) && Roomy(s, inner)
    ensures Deep(BlockValue(s, es, pos, out, inner, level, simple).out)
    decreases if pos <= |es| then |es| - pos else 0, 1
  {
    hide Deep, Node, BlockPairs;
    if pos < |es| && IsNode(es[pos].kind) {
      var mark := if simple then [Tight(":")] else [IndentTo(inner), Compact(":")];
      var value := Node(s, es, pos, out + mark, inner, level, VALUE);
      NoText(out, mark);
      NodeDeep(s, es, pos, out + mark, inner, level, VALUE);
      BlockPairsDeep(s, es, value.pos, value.out, inner, level);
    }
  }

  lemma {:induction false} DirectivesHaveNoText(ds: seq<TagDirective>)
    ensures forall i :: 0 <= i < |Directives(ds)| ==> !Directives(ds)[i].ScalarText?
  {
    if ds != [] {
      DirectivesHaveNoText(ds[..|ds| - 1]);
    }
  }

  lemma HeadDeep(s: Settings, e: Event, out: seq<Write>, first: bool)
    requires Deep(out)
    ensures Deep(Head(s, e, out, first))
  {
    hide Deep, Directives;
    var end, version, start := [Spaced("..."), Indent(0)], [Spaced("%YAML"), Spaced("1.1"), Indent(0)],
        [Indent(0), Spaced("---")];
    NoText(out, end);
    NoText(out, version);
    NoText(out + end, version);
    DirectivesHaveNoText(e.tagDirectives);
    var directives := Versioned(s, e, out) + Directives(e.tagDirectives);
    NoText(Versioned(s, e, out), Directives(e.tagDirectives));
    NoText(directives, start);
    NoText(directives + start, [Indent(0)]);
  }

  lemma {:induction false} DocumentsDeep(s: Settings, es: seq<Event>, pos: nat, out: seq<Write>, first: bool)
    requires Deep(out) && Roomy(s, -1)
    ensures Deep(Documents(s, es, pos, out, first).out)
    decreases if pos <= |es| then |es| - pos else 0
  {
    hide Deep, Head, Body, AddMissing;
    NoText(out, [Spaced("..."), Indent(0)]);
    if pos < |es| && es[pos].kind == DocumentStart {
      HeadDeep(s, es[pos], out, first);
      BodyDeep(s.(directives := AddMissing(es[pos].tagDirectives, DEFAULT_DIRECTIVES)), es, pos + 1,
        Head(s, es[pos], out, first));
    }
  }

  lemma {:induction false} BodyDeep(s: Settings, es: seq<Event>, pos: nat, out: seq<Write>)
    requires Deep(out) && Roomy(s, -1)
    ensures Deep(Body(s, es, pos, out).out)
    decreases if pos <= |es| then |es| - pos else 0
  {
    hide Deep, Node, Documents;
    if pos < |es| && IsNode(es[pos].kind) {
      var root := Node(s, es, pos, out, -1, 0, ROOT);
      NodeDeep(s, es, pos, out, -1, 0, ROOT);
      if root.pos < |es| && es[root.pos].kind == DocumentEnd {
        var end := [Indent(0)] + if es[root.pos].implicit then [] else [Spaced("..."), Indent(0)];
        NoText(root.out, end);
        assert root.out + end ==
          root.out + [Indent(0)] + if es[root.pos].implicit then [] else [Spaced("..."), Indent(0)];
        DocumentsDeep(s.(directives := []), es, root.pos + 1, root.out + end, false);
      }
    }
  }

  /** The emitter writes every scalar with an indentation of at least 2. */
  lemma ScalarsAreDeep(s: Settings, es: seq<Event>)
    ensures Deep(Layout(s, es).out)
  {
    hide Documents;
    DocumentsDeep(Normal(s), es, 1, [], true);
  }
}
