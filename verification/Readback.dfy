/** What the emitter writes can be read back.
  *
  * A reader of the log of writes finds the events again: the kinds, the anchors and the values.
  * It knows nothing of the settings of the emitter but whether the canonical form was asked for.
  * Block collections are told apart by the columns that lines are indented to. */
module YamlReadback {
  import opened Options
  import opened YamlEvents
  import opened YamlTokens
  import opened YamlLayout
  import YamlDescent

  // ----- Shapes ------------------------------------------------------------------------

  /** What is left of an event: its kind, its anchor or the name of its alias, and its value. */
  datatype Shape = Shape(kind: EventKind, name: string, value: string)

  function ShapeOf(e: Event): Shape {
    Shape(e.kind, if IsNode(e.kind) then AnchorText(e) else "", if e.kind == Scalar then e.value else "")
  }

  function Shapes(es: seq<Event>): (r: seq<Shape>)
    ensures |r| == |es|
  {
    seq(|es|, i requires 0 <= i < |es| => ShapeOf(es[i]))
  }

  // ----- The reader --------------------------------------------------------------------

  datatype Found = Found(shapes: seq<Shape>, pos: nat) | Lost

  predicate Inside(r: Found, from: nat, to: nat) {
    r.Found? ==> from <= r.pos <= to
  }

  function Start(kind: EventKind, name: string): Shape {
    Shape(kind, name, "")
  }

  function After(shapes: seq<Shape>, r: Found): Found {
    if r.Lost? then Lost else Found(shapes + r.shapes, r.pos)
  }

  /** Can a node that is not a block collection start with this write? */
  predicate StartsNode(w: Write) {
    w == Spaced("&") || w == Spaced("*") || w.TagText? || w.ScalarText? || w == Opening("[") || w == Opening("{")
  }

  /** Can a child of a block collection start with this write, behind the indentation? */
  predicate StartsChild(w: Write) {
    w == Compact("-") || w == Compact("?") || StartsNode(w)
  }

  function ReadNode(ws: seq<Write>, i: nat): (r: Found)
    ensures Inside(r, i, |ws|)
    decreases |ws| - i, 3
  {
    if i + 1 < |ws| && ws[i] == Spaced("*") && ws[i + 1].Anchor? then
      Found([Start(Alias, ws[i + 1].name)], i + 2)
    else if i + 1 < |ws| && ws[i] == Spaced("&") && ws[i + 1].Anchor? then
      ReadContent(ws, BehindTag(ws, i + 2), ws[i + 1].name)
    else ReadContent(ws, BehindTag(ws, i), "")
  }

  function BehindTag(ws: seq<Write>, i: nat): (k: nat)
    ensures i <= k && (i <= |ws| ==> k <= |ws|)
  {
    if i < |ws| && ws[i].TagText? then i + 1 else i
  }

  /** A node whose anchor and tag were read. */
  function ReadContent(ws: seq<Write>, k: nat, name: string): (r: Found)
    ensures Inside(r, k, |ws|)
    decreases |ws| - k, 2
  {
    if k >= |ws| then Lost
    else if ws[k].ScalarText? then Found([Shape(Scalar, name, ws[k].value)], k + 1)
    else if ws[k] == Opening("[") then After([Start(SequenceStart, name)], ReadFlowItems(ws, k + 1))
    else if ws[k] == Opening("{") then After([Start(MappingStart, name)], ReadFlowPairs(ws, k + 1))
    else if ws[k].Indent? && k + 1 < |ws| && ws[k + 1] == Compact("-") then
      After([Start(SequenceStart, name)], ReadBlockItems(ws, k, ws[k].column))
    else if ws[k].Indent? then After([Start(MappingStart, name)], ReadBlockPairs(ws, k, ws[k].column))
    else Lost
  }

  function ReadFlowItems(ws: seq<Write>, i: nat): (r: Found)
    ensures Inside(r, i, |ws|)
    decreases |ws| - i, 4
  {
    if i >= |ws| then Lost
    else if ws[i].Indent? || ws[i] == Tight(",") then ReadFlowItems(ws, i + 1)
    else if ws[i] == Tight("]") then Found([Start(SequenceEnd, "")], i + 1)
    else
      var item := ReadNode(ws, i);
      if item.Lost? || item.pos <= i then Lost else After(item.shapes, ReadFlowItems(ws, item.pos))
  }

  function ReadFlowPairs(ws: seq<Write>, i: nat): (r: Found)
    ensures Inside(r, i, |ws|)
    decreases |ws| - i, 4
  {
    if i >= |ws| then Lost
    else if ws[i].Indent? || ws[i] == Tight(",") then ReadFlowPairs(ws, i + 1)
    else if ws[i] == Tight("}") then Found([Start(MappingEnd, "")], i + 1)
    else
      var key := ReadNode(ws, if ws[i] == Spaced("?") then i + 1 else i);
      if key.Lost? || key.pos <= i then Lost else After(key.shapes, ReadFlowValue(ws, key.pos))
  }

  function ReadFlowValue(ws: seq<Write>, i: nat): (r: Found)
    ensures Inside(r, i, |ws|)
    decreases |ws| - i, 4
  {
    if i >= |ws| then Lost
    else if ws[i].Indent? then ReadFlowValue(ws, i + 1)
    else if ws[i] == Tight(":") || ws[i] == Spaced(":") then
      var value := ReadNode(ws, i + 1);
      if value.Lost? then Lost else After(value.shapes, ReadFlowPairs(ws, value.pos))
    else Lost
  }

  /** The items of a block sequence whose lines are indented to `column`. */
  function ReadBlockItems(ws: seq<Write>, i: nat, column: int): (r: Found)
    requires i <= |ws|
    ensures Inside(r, i, |ws|)
    decreases |ws| - i, 1
  {
    if i + 1 < |ws| && ws[i] == Indent(column) && ws[i + 1] == Compact("-") then
      var item := ReadNode(ws, i + 2);
      if item.Lost? then Lost else After(item.shapes, ReadBlockItems(ws, item.pos, column))
    else Found([Start(SequenceEnd, "")], i)
  }

  /** The pairs of a block mapping whose lines are indented to `column`. */
  function ReadBlockPairs(ws: seq<Write>, i: nat, column: int): (r: Found)
    requires i <= |ws|
    ensures Inside(r, i, |ws|)
    decreases |ws| - i, 1
  {
    if i + 1 < |ws| && ws[i] == Indent(column) && (ws[i + 1] == Compact("?") || StartsNode(ws[i + 1])) then
      var key := ReadNode(ws, if ws[i + 1] == Compact("?") then i + 2 else i + 1);
      if key.Lost? then Lost else After(key.shapes, ReadBlockValue(ws, key.pos, column))
    else Found([Start(MappingEnd, "")], i)
  }

  function ReadBlockValue(ws: seq<Write>, i: nat, column: int): (r: Found)
    ensures Inside(r, i, |ws|)
    decreases |ws| - i, 4
  {
    if i < |ws| && ws[i] == Tight(":") then
      var value := ReadNode(ws, i + 1);
      if value.Lost? then Lost else After(value.shapes, ReadBlockPairs(ws, value.pos, column))
    else if i + 1 < |ws| && ws[i] == Indent(column) && ws[i + 1] == Compact(":") then
      var value := ReadNode(ws, i + 2);
      if value.Lost? then Lost else After(value.shapes, ReadBlockPairs(ws, value.pos, column))
    else Lost
  }

  // ----- Documents ---------------------------------------------------------------------

  /** Does the root node of a document start here, without an indicator before it? */
  predicate RootAt(ws: seq<Write>, i: nat) {
    i < |ws| && (StartsNode(ws[i]) || (ws[i].Indent? && i + 1 < |ws| && StartsChild(ws[i + 1])))
  }

  /** The position behind the next indicator of a document, if there is one. */
  function NextDocument(ws: seq<Write>, i: nat): (next: Option<nat>)
    ensures next.Some? ==> i < next.value <= |ws|
    decreases |ws| - i
  {
    if i >= |ws| then None
    else if ws[i] == Spaced("---") then Some(i + 1)
    else NextDocument(ws, i + 1)
  }

  function ReadDocuments(ws: seq<Write>, i: nat, first: bool, canonical: bool): Found
    decreases |ws| - i, 4
  {
    if first && RootAt(ws, i) then ReadDocument(ws, i, canonical)
    else
      match NextDocument(ws, i)
      case None => Found([Start(StreamEnd, "")], |ws|)
      case Some(k) => ReadDocument(ws, if canonical && k < |ws| && ws[k].Indent? then k + 1 else k, canonical)
  }

  function ReadDocument(ws: seq<Write>, i: nat, canonical: bool): Found
    decreases |ws| - i, 3
  {
    var root := ReadNode(ws, i);
    if root.Lost? || root.pos <= i then Lost
    else After([Start(DocumentStart, "")] + root.shapes + [Start(DocumentEnd, "")],
           ReadDocuments(ws, root.pos, false, canonical))
  }

  function Read(ws: seq<Write>, canonical: bool): Found {
    After([Start(StreamStart, "")], ReadDocuments(ws, 0, true, canonical))
  }

  // ----- The printer takes whole nodes -------------------------------------------------

  /** The events from `pos` on are the rest of a whole stream at a point of the grammar. */
  ghost predicate Legal(es: seq<Event>, pos: nat, g: Grammar) {
    pos <= |es| && Run(g, Kinds(es[pos..])) == End
  }

  /** The printer went on, and is now at the point `g` of the grammar. */
  ghost predicate Done(es: seq<Event>, pos: nat, out: seq<Write>, r: Printed, g: Grammar) {
    pos <= r.pos && out <= r.out && Legal(es, r.pos, g)
  }

  lemma Next(es: seq<Event>, pos: nat, g: Grammar)
    requires Legal(es, pos, g) && g != End
    ensures pos < |es| && Step(g, es[pos].kind) != Reject && Legal(es, pos + 1, Step(g, es[pos].kind))
  {
    hide Run, Step;
    var ks := Kinds(es[pos..]);
    GoesOn(g, ks);
    assert ks[0] == es[pos].kind && ks[1..] == Kinds(es[pos + 1..]);
  }

  /** What may come next inside an open production, and where it leads. */
  lemma Steps(base: seq<Frame>, f: Frame, k: EventKind)
    requires Step(Doc(base + [f]), k) != Reject
    ensures f == SeqFrame ==> IsNode(k) || k == SequenceEnd
    ensures f == MapFrame(true) ==> IsNode(k) || k == MappingEnd
    ensures f == MapFrame(false) || f == DocFrame(false) ==> IsNode(k)
    ensures f == DocFrame(true) ==> k == DocumentEnd
    ensures k == SequenceEnd || k == MappingEnd ==> Step(Doc(base + [f]), k) == Doc(base)
    ensures k == Alias || k == Scalar ==> Step(Doc(base + [f]), k) == Doc(base + [Fill(f)])
    ensures k == SequenceStart ==> Step(Doc(base + [f]), k) == Doc(base + [Fill(f)] + [SeqFrame])
    ensures k == MappingStart ==> Step(Doc(base + [f]), k) == Doc(base + [Fill(f)] + [MapFrame(true)])
  {
    var frames := base + [f];
    assert frames[..|frames| - 1] == base && frames[|frames| - 1] == f;
  }

  lemma {:induction false} NodeDone(s: Settings, es: seq<Event>, pos: nat, out: seq<Write>, indent: int, level: nat,
      place: Place, base: seq<Frame>, f: Frame)
    requires Legal(es, pos, Doc(base + [f])) && pos < |es| && IsNode(es[pos].kind)
    ensures pos < Node(s, es, pos, out, indent, level, place).pos
    ensures Done(es, pos, out, Node(s, es, pos, out, indent, level, place), Doc(base + [Fill(f)]))
    decreases |es| - pos, 0
  {
    hide Legal, Step, Collection, Anchoring, Tagging, TagOf, ScalarWrites, InFlow;
    var e := es[pos];
    Next(es, pos, Doc(base + [f]));
    Steps(base, f, e.kind);
    if e.kind == SequenceStart || e.kind == MappingStart {
      var sequence := e.kind == SequenceStart;
      CollectionDone(s, es, pos + 1, out + Anchoring(e) + Tagging(TagOf(s, e)), sequence, InFlow(s, es, pos, level),
          indent,
        level, place.mapping, base + [Fill(f)]);
    }
  }

  lemma {:induction false} CollectionDone(s: Settings, es: seq<Event>, pos: nat, out: seq<Write>, sequence: bool,
      flow: bool, indent: int, level: nat, mapping: bool, base: seq<Frame>)
    requires Legal(es, pos, Doc(base + [if sequence then SeqFrame else MapFrame(true)]))
    ensures Done(es, pos, out, Collection(s, es, pos, out, sequence, flow, indent, level, mapping), Doc(base))
    decreases |es| - pos, 2
  {
    hide Legal, FlowItems, FlowPairs, BlockItems, BlockPairs, Inner;
    var inner := Inner(s, indent, true, false);
    if flow {
      if sequence {
        FlowItemsDone(s, es, pos, out + [Opening("[")], indent, inner, level + 1, true, base);
      } else {
        FlowPairsDone(s, es, pos, out + [Opening("{")], indent, inner, level + 1, true, base);
      }
    } else if sequence {
      BlockItemsDone(s, es, pos, out, Inner(s, indent, false, mapping && !s.pen(out).indention), level, base);
    } else {
      BlockPairsDone(s, es, pos, out, Inner(s, indent, false, false), level, base);
    }
  }

  lemma {:induction false} FlowItemsDone(s: Settings, es: seq<Event>, pos: nat, out: seq<Write>, outer: int, inner: int,
      level: nat, first: bool, base: seq<Frame>)
    requires Legal(es, pos, Doc(base + [SeqFrame]))
    ensures Done(es, pos, out, FlowItems(s, es, pos, out, outer, inner, level, first), Doc(base))
    decreases |es| - pos, 1
  {
    hide Legal, Step, Node;
    Next(es, pos, Doc(base + [SeqFrame]));
    Steps(base, SeqFrame, es[pos].kind);
    if IsNode(es[pos].kind) {
      var item := Node(s, es, pos, Separated(s, out, inner, first), inner, level, ITEM);
      NodeDone(s, es, pos, Separated(s, out, inner, first), inner, level, ITEM, base, SeqFrame);
      FlowItemsDone(s, es, item.pos, item.out, outer, inner, level, false, base);
    }
  }

  lemma {:induction false} FlowPairsDone(s: Settings, es: seq<Event>, pos: nat, out: seq<Write>, outer: int, inner: int,
      level: nat, first: bool, base: seq<Frame>)
    requires Legal(es, pos, Doc(base + [MapFrame(true)]))
    ensures Done(es, pos, out, FlowPairs(s, es, pos, out, outer, inner, level, first), Doc(base))
    decreases |es| - pos, 1
  {
    hide Legal, Step, Node, SimpleKey, FlowValue;
    Next(es, pos, Doc(base + [MapFrame(true)]));
    Steps(base, MapFrame(true), es[pos].kind);
    if IsNode(es[pos].kind) {
      var line := Separated(s, out, inner, first);
      var simple := !s.canonical && SimpleKey(s, es, pos);
      var before := if simple then line else line + [Spaced("?")];
      var key := Node(s, es, pos, before, inner, level, KEY(simple));
      NodeDone(s, es, pos, before, inner, level, KEY(simple), base, MapFrame(true));
      FlowValueDone(s, es, key.pos, key.out, outer, inner, level, simple, base);
    }
  }

  lemma {:induction false} FlowValueDone(s: Settings, es: seq<Event>, pos: nat, out: seq<Write>, outer: int, inner: int,
      level: nat, simple: bool, base: seq<Frame>)
    requires Legal(es, pos, Doc(base + [MapFrame(false)]))
    ensures Done(es, pos, out, FlowValue(s, es, pos, out, outer, inner, level, simple), Doc(base))
    decreases |es| - pos, 1
  {
    hide Legal, Step, Node, FlowPairs;
    Next(es, pos, Doc(base + [MapFrame(false)]));
    Steps(base, MapFrame(false), es[pos].kind);
    var before := if simple then out + [Tight(":")] else Wrapped(s, out, inner) + [Spaced(":")];
    var value := Node(s, es, pos, before, inner, level, VALUE);
    NodeDone(s, es, pos, before, inner, level, VALUE, base, MapFrame(false));
    FlowPairsDone(s, es, value.pos, value.out, outer, inner, level, false, base);
  }

  lemma {:induction false} BlockItemsDone(s: Settings, es: seq<Event>, pos: nat, out: seq<Write>, inner: int,
      level: nat, base: seq<Frame>)
    requires Legal(es, pos, Doc(base + [SeqFrame]))
    ensures Done(es, pos, out, BlockItems(s, es, pos, out, inner, level), Doc(base))
    decreases |es| - pos, 1
  {
    hide Legal, Step, Node;
    Next(es, pos, Doc(base + [SeqFrame]));
    Steps(base, SeqFrame, es[pos].kind);
    if IsNode(es[pos].kind) {
      var before := out + [IndentTo(inner), Compact("-")];
      var item := Node(s, es, pos, before, inner, level, ITEM);
      NodeDone(s, es, pos, before, inner, level, ITEM, base, SeqFrame);
      BlockItemsDone(s, es, item.pos, item.out, inner, level, base);
    }
  }

  lemma {:induction false} BlockPairsDone(s: Settings, es: seq<Event>, pos: nat, out: seq<Write>, inner: int,
      level: nat, base: seq<Frame>)
    requires Legal(es, pos, Doc(base + [MapFrame(true)]))
    ensures Done(es, pos, out, BlockPairs(s, es, pos, out, inner, level), Doc(base))
    decreases |es| - pos, 1
  {
    hide Legal, Step, Node, SimpleKey, BlockValue;
    Next(es, pos, Doc(base + [MapFrame(true)]));
    Steps(base, MapFrame(true), es[pos].kind);
    if IsNode(es[pos].kind) {
      var line := out + [IndentTo(inner)];
      var simple := SimpleKey(s, es, pos);
      var before := if simple then line else line + [Compact("?")];
      var key := Node(s, es, pos, before, inner, level, KEY(simple));
      NodeDone(s, es, pos, before, inner, level, KEY(simple), base, MapFrame(true));
      BlockValueDone(s, es, key.pos, key.out, inner, level, simple, base);
    }
  }

  lemma {:induction false} BlockValueDone(s: Settings, es: seq<Event>, pos: nat, out: seq<Write>, inner: int,
      level: nat, simple: bool, base: seq<Frame>)
    requires Legal(es, pos, Doc(base + [MapFrame(false)]))
    ensures Done(es, pos, out, BlockValue(s, es, pos, out, inner, level, simple), Doc(base))
    decreases |es| - pos, 1
  {
    hide Legal, Step, Node, BlockPairs;
    Next(es, pos, Doc(base + [MapFrame(false)]));
    Steps(base, MapFrame(false), es[pos].kind);
    var before := out + if simple then [Tight(":")] else [IndentTo(inner), Compact(":")];
    var value := Node(s, es, pos, before, inner, level, VALUE);
    NodeDone(s, es, pos, before, inner, level, VALUE, base, MapFrame(false));
    BlockPairsDone(s, es, value.pos, value.out, inner, level, base);
  }


  // ----- The reader finds them again ---------------------------------------------------

  /** Every alias has a name. */
  ghost predicate Named(es: seq<Event>) {
    forall i :: 0 <= i < |es| && es[i].kind == Alias ==> AnchorText(es[i]) != ""
  }

  /** What comes at `p` does not go on with a block collection that is indented more than
    * `indent`, or with a sequence that is indented as much as the mapping it is in. */
  ghost predicate Stops(ws: seq<Write>, p: nat, indent: int, mapping: bool) {
    p + 1 < |ws| && ws[p].Indent? ==>
      && (ws[p].column > indent ==> !StartsChild(ws[p + 1]))
      && (ws[p].column == indent && mapping ==> ws[p + 1] != Compact("-"))
  }

  lemma Joined(es: seq<Event>, a: nat, b: nat, c: nat)
    requires a <= b <= c <= |es|
    ensures Shapes(es[a..b]) + Shapes(es[b..c]) == Shapes(es[a..c])
  {
  }

  lemma One(es: seq<Event>, pos: nat)
    requires pos < |es|
    ensures Shapes(es[pos..pos + 1]) == [ShapeOf(es[pos])]
  {
  }

  predicate StartsContent(w: Write) {
    w.ScalarText? || w == Opening("[") || w == Opening("{") || w.Indent?
  }

  /** A tag is skipped, and a tag or content is no anchor. */
  lemma TagRead(ws: seq<Write>, named: seq<Write>, tag: Tag)
    requires var start := named + Tagging(tag); start <= ws && |start| < |ws| && StartsContent(ws[|start|])
    ensures named <= ws && BehindTag(ws, |named|) == |named + Tagging(tag)|
    ensures |named| < |ws| && ws[|named|] != Spaced("&") && ws[|named|] != Spaced("*")
  {
    var start := named + Tagging(tag);
    assert start[..|named|] == named;
    if tag != NO_TAG {
      assert ws[|named|] == start[|named|];
    }
  }

  /** The anchor and the tag of a node are read. */
  lemma PropertiesRead(ws: seq<Write>, out: seq<Write>, e: Event, tag: Tag)
    requires e.kind != Alias
    requires var start := out + Anchoring(e) + Tagging(tag);
      start <= ws && |start| < |ws| && StartsContent(ws[|start|])
    ensures ReadNode(ws, |out|) == ReadContent(ws, |out + Anchoring(e) + Tagging(tag)|, AnchorText(e))
  {
    hide ReadContent, Tagging, StartsContent;
    var named := out + Anchoring(e);
    TagRead(ws, named, tag);
    assert named <= ws;
    if AnchorText(e) != "" {
      assert named[|out|] == Spaced("&") && named[|out| + 1] == Anchor(AnchorText(e), false);
      assert ws[|out|] == named[|out|] && ws[|out| + 1] == named[|out| + 1];
    } else {
      assert named == out;
    }
  }

  lemma AliasRead(ws: seq<Write>, out: seq<Write>, e: Event)
    requires e.kind == Alias && AnchorText(e) != "" && out + Anchoring(e) <= ws
    ensures ReadNode(ws, |out|) == Found([ShapeOf(e)], |out + Anchoring(e)|)
  {
    var r := out + Anchoring(e);
    assert r[|out|] == Spaced("*") && r[|out| + 1] == Anchor(AnchorText(e), true);
    assert ws[|out|] == r[|out|] && ws[|out| + 1] == r[|out| + 1];
  }

  /** A node that is not a block collection. */
  predicate Inline(s: Settings, es: seq<Event>, pos: nat, level: nat)
    requires pos < |es|
  {
    es[pos].kind == Alias || es[pos].kind == Scalar || InFlow(s, es, pos, level)
  }

  lemma SimpleIsInline(s: Settings, es: seq<Event>, pos: nat, level: nat)
    requires pos < |es| && SimpleKey(s, es, pos)
    ensures Inline(s, es, pos, level)
  {
  }

  /** The column of the lines of a block collection. */
  function ColumnOf(s: Settings, out: seq<Write>, sequence: bool, indent: int, mapping: bool): int {
    Inner(s, indent, false, sequence && mapping && !s.pen(out).indention)
  }

  /** Does the write at `i` and the next one start a block collection, or an inline node? */
  predicate Opens(ws: seq<Write>, i: nat, inline: bool) {
    && i < |ws|
    && if inline then StartsNode(ws[i])
       else StartsNode(ws[i]) || (ws[i].Indent? && i + 1 < |ws| && StartsChild(ws[i + 1]))
  }

  lemma OpensMore(a: seq<Write>, b: seq<Write>, i: nat, inline: bool)
    requires Opens(a, i, inline) && a <= b
    ensures Opens(b, i, inline)
  {
  }

  /** How a node starts: with its anchor, its tag or its content. */
  lemma {:induction false} NodeStarts(s: Settings, es: seq<Event>, pos: nat, out: seq<Write>, indent: int, level: nat,
      place: Place, base: seq<Frame>, f: Frame)
    requires Legal(es, pos, Doc(base + [f])) && pos < |es| && IsNode(es[pos].kind) && Named(es)
    ensures Opens(Node(s, es, pos, out, indent, level, place).out, |out|, Inline(s, es, pos, level))
    decreases |es| - pos, 0
  {
    hide Legal, Step, Collection, TagOf, StyleOf, ScalarTag, InFlow, Inner, SimpleKey;
    var e := es[pos];
    var start := out + Anchoring(e) + Tagging(TagOf(s, e));
    Next(es, pos, Doc(base + [f]));
    Steps(base, f, e.kind);
    if e.kind == SequenceStart || e.kind == MappingStart {
      var sequence, flow := e.kind == SequenceStart, InFlow(s, es, pos, level);
      if !flow {
        NotEmpty(s, es, pos, level, base + [Fill(f)]);
      }
      CollectionStarts(s, es, pos + 1, start, sequence, flow, indent, level, place.mapping, base + [Fill(f)]);
      CollectionDone(s, es, pos + 1, start, sequence, flow, indent, level, place.mapping, base + [Fill(f)]);
      PropertiesStart(out, e, TagOf(s, e), Node(s, es, pos, out, indent, level, place).out);
    }
  }

  /** A collection in block style has a child. */
  lemma NotEmpty(s: Settings, es: seq<Event>, pos: nat, level: nat, base: seq<Frame>)
    requires pos < |es| && (es[pos].kind == SequenceStart || es[pos].kind == MappingStart) && !InFlow(s, es, pos, level)
    requires Legal(es, pos + 1, Doc(base + [if es[pos].kind == SequenceStart then SeqFrame else MapFrame(true)]))
    ensures level == 0 && pos + 1 < |es| && IsNode(es[pos + 1].kind)
  {
    hide Legal, Step;
    var f := if es[pos].kind == SequenceStart then SeqFrame else MapFrame(true);
    Next(es, pos + 1, Doc(base + [f]));
    Steps(base, f, es[pos + 1].kind);
  }

  lemma PropertiesStart(out: seq<Write>, e: Event, tag: Tag, more: seq<Write>)
    requires e.kind != Alias
    requires var start := out + Anchoring(e) + Tagging(tag); start <= more && |start| < |more|
    ensures AnchorText(e) == "" && tag == NO_TAG ==> |out + Anchoring(e) + Tagging(tag)| == |out|
    ensures AnchorText(e) != "" || tag != NO_TAG ==> |out| < |more| && StartsNode(more[|out|])
  {
    var start := out + Anchoring(e) + Tagging(tag);
    if AnchorText(e) != "" {
      assert more[|out|] == start[|out|] == Spaced("&");
    } else if tag != NO_TAG {
      assert more[|out|] == start[|out|] == TagText(tag.handle, tag.suffix);
    }
  }

  lemma {:induction false} CollectionStarts(s: Settings, es: seq<Event>, pos: nat, out: seq<Write>, sequence: bool,
      flow: bool, indent: int, level: nat, mapping: bool, base: seq<Frame>)
    requires Legal(es, pos, Doc(base + [if sequence then SeqFrame else MapFrame(true)])) && Named(es)
    requires !flow ==> pos < |es| && IsNode(es[pos].kind)
    ensures var r := Collection(s, es, pos, out, sequence, flow, indent, level, mapping).out;
      && |out| < |r|
      && (flow ==> r[|out|] == Opening(if sequence then "[" else "{"))
      && (!flow ==> |out| + 1 < |r| && r[|out|] == IndentTo(ColumnOf(s, out, sequence, indent, mapping)))
      && (!flow && sequence ==> r[|out| + 1] == Compact("-"))
      && (!flow && !sequence ==> r[|out| + 1] == Compact("?") || StartsNode(r[|out| + 1]))
    decreases |es| - pos, 2
  {
    hide Legal, Step, Node, Inner, SimpleKey, FlowItems, FlowPairs, BlockValue, Inline;
    var r := Collection(s, es, pos, out, sequence, flow, indent, level, mapping).out;
    if flow {
      var inner := Inner(s, indent, true, false);
      if sequence {
        FlowItemsDone(s, es, pos, out + [Opening("[")], indent, inner, level + 1, true, base);
      } else {
        FlowPairsDone(s, es, pos, out + [Opening("{")], indent, inner, level + 1, true, base);
      }
      assert r[|out|] == (out + [Opening(if sequence then "[" else "{")])[|out|];
    } else {
      Next(es, pos, Doc(base + [if sequence then SeqFrame else MapFrame(true)]));
      var inner := ColumnOf(s, out, sequence, indent, mapping);
      if sequence {
        var line := out + [IndentTo(inner), Compact("-")];
        var item := Node(s, es, pos, line, inner, level, ITEM);
        NodeDone(s, es, pos, line, inner, level, ITEM, base, SeqFrame);
        BlockItemsDone(s, es, item.pos, item.out, inner, level, base);
        assert line <= r && r[|out|] == line[|out|] && r[|out| + 1] == line[|out| + 1];
      } else {
        var simple := SimpleKey(s, es, pos);
        var line := if simple then out + [IndentTo(inner)] else out + [IndentTo(inner)] + [Compact("?")];
        var key := Node(s, es, pos, line, inner, level, KEY(simple));
        assert r == BlockPairs(s, es, pos, out, inner, level).out;
        assert r == BlockValue(s, es, key.pos, key.out, inner, level, simple).out;
        NodeDone(s, es, pos, line, inner, level, KEY(simple), base, MapFrame(true));
        NodeStarts(s, es, pos, line, inner, level, KEY(simple), base, MapFrame(true));
        BlockValueDone(s, es, key.pos, key.out, inner, level, simple, base);
        if simple {
          SimpleIsInline(s, es, pos, level);
        }
        OpensMore(key.out, r, |line|, simple);
        assert line <= r && r[|out|] == line[|out|];
        if !simple {
          assert r[|out| + 1] == line[|out| + 1];
        }
      }
    }
  }

  /** An indentation is at least -1, and grows. */
  ghost predicate Sane(s: Settings, es: seq<Event>, indent: int) {
    s.bestIndent > 0 && indent >= -1 && Named(es)
  }

  /** A node is read back, given that what follows does not go on with it. */
  lemma {:induction false} NodeReads(s: Settings, es: seq<Event>, pos: nat, out: seq<Write>, indent: int, level: nat,
      place: Place, base: seq<Frame>, f: Frame, ws: seq<Write>)
    requires Legal(es, pos, Doc(base + [f])) && pos < |es| && IsNode(es[pos].kind) && Sane(s, es, indent)
    requires var r := Node(s, es, pos, out, indent, level, place);
      r.out <= ws && (level == 0 ==> Stops(ws, |r.out|, indent, place.mapping))
    ensures var r := Node(s, es, pos, out, indent, level, place);
      pos <= r.pos <= |es| && ReadNode(ws, |out|) == Found(Shapes(es[pos..r.pos]), |r.out|)
    decreases |es| - pos, 0
  {
    hide Legal, Step, Collection, TagOf, StyleOf, ScalarTag, InFlow, Inner, Tagging, Anchoring, ReadNode, Stops,
      StartsNode;
    var e := es[pos];
    Next(es, pos, Doc(base + [f]));
    Steps(base, f, e.kind);
    One(es, pos);
    if e.kind == Alias {
      AliasRead(ws, out, e);
    } else if e.kind == Scalar {
      ScalarReads(s, e, out, indent, level, place, ws);
    } else {
      var start := out + Anchoring(e) + Tagging(TagOf(s, e));
      var sequence, flow := e.kind == SequenceStart, InFlow(s, es, pos, level);
      if !flow {
        NotEmpty(s, es, pos, level, base + [Fill(f)]);
      }
      CollectionStarts(s, es, pos + 1, start, sequence, flow, indent, level, place.mapping, base + [Fill(f)]);
      CollectionDone(s, es, pos + 1, start, sequence, flow, indent, level, place.mapping, base + [Fill(f)]);
      var r := Node(s, es, pos, out, indent, level, place);
      assert ws[|start|] == r.out[|start|];
      PropertiesRead(ws, out, e, TagOf(s, e));
      CollectionReads(s, es, pos + 1, start, sequence, flow, indent, level, place.mapping, base + [Fill(f)], ws,
          AnchorText(e));
      Joined(es, pos, pos + 1, r.pos);
    }
  }

  lemma ScalarReads(s: Settings, e: Event, out: seq<Write>, indent: int, level: nat, place: Place, ws: seq<Write>)
    requires e.kind == Scalar && out + ScalarWrites(s, e, indent, level, place) <= ws
    ensures ReadNode(ws, |out|) == Found([ShapeOf(e)], |out + ScalarWrites(s, e, indent, level, place)|)
  {
    hide StyleOf, ScalarTag, Tagging, Inner, ReadNode;
    var tag := ScalarTag(s, e, StyleOf(s, e, level > 0, place.simpleKey));
    var start, all := out + Anchoring(e) + Tagging(tag), out + ScalarWrites(s, e, indent, level, place);
    assert all == start + [all[|start|]];
    assert ws[|start|] == all[|start|];
    PropertiesRead(ws, out, e, tag);
  }

  /** The content of a collection is read back. */
  lemma {:induction false} CollectionReads(s: Settings, es: seq<Event>, pos: nat, out: seq<Write>, sequence: bool,
      flow: bool, indent: int, level: nat, mapping: bool, base: seq<Frame>, ws: seq<Write>, name: string)
    requires Legal(es, pos, Doc(base + [if sequence then SeqFrame else MapFrame(true)])) && Sane(s, es, indent)
    requires !flow ==> level == 0 && pos < |es| && IsNode(es[pos].kind)
    requires var r := Collection(s, es, pos, out, sequence, flow, indent, level, mapping);
      r.out <= ws && (level == 0 ==> Stops(ws, |r.out|, indent, mapping))
    ensures var r := Collection(s, es, pos, out, sequence, flow, indent, level, mapping);
      && pos <= r.pos <= |es|
      && ReadContent(ws, |out|, name) ==
           Found([Start(if sequence then SequenceStart else MappingStart, name)] + Shapes(es[pos..r.pos]), |r.out|)
    decreases |es| - pos, 2
  {
    hide Legal, Step, FlowItems, FlowPairs, BlockItems, BlockPairs, ReadFlowItems, ReadFlowPairs, ReadBlockItems,
      ReadBlockPairs, Inner, Stops, StartsNode;
    var r := Collection(s, es, pos, out, sequence, flow, indent, level, mapping);
    CollectionStarts(s, es, pos, out, sequence, flow, indent, level, mapping, base);
    CollectionDone(s, es, pos, out, sequence, flow, indent, level, mapping, base);
    assert ws[|out|] == r.out[|out|];
    if flow {
      var inner := Inner(s, indent, true, false);
      FlowInner(s, indent);
      if sequence {
        FlowItemsRead(s, es, pos, out + [Opening("[")], indent, inner, level + 1, true, base, ws);
      } else {
        FlowPairsRead(s, es, pos, out + [Opening("{")], indent, inner, level + 1, true, base, ws);
      }
    } else {
      assert ws[|out| + 1] == r.out[|out| + 1];
      var inner := ColumnOf(s, out, sequence, indent, mapping);
      InnerGrows(s, out, sequence, indent, mapping);
      if sequence {
        BlockItemsRead(s, es, pos, out, inner, indent, mapping, base, ws);
      } else {
        NotDash(ws[|out| + 1]);
        BlockPairsRead(s, es, pos, out, inner, indent, mapping, base, ws);
      }
    }
  }

  lemma NotDash(w: Write)
    requires w == Compact("?") || StartsNode(w)
    ensures w != Compact("-")
  {
  }

  lemma InnerGrows(s: Settings, out: seq<Write>, sequence: bool, indent: int, mapping: bool)
    requires s.bestIndent > 0 && indent >= -1
    ensures var inner := ColumnOf(s, out, sequence, indent, mapping);
      inner >= 0 && (inner > indent || (inner == indent && sequence && mapping))
  {
  }

  lemma FlowInner(s: Settings, indent: int)
    requires s.bestIndent > 0 && indent >= -1
    ensures Inner(s, indent, true, false) >= 0
  {
  }

  // ----- Flow collections --------------------------------------------------------------

  /** Separators and new lines are skipped. */
  lemma ItemsSkip(s: Settings, out: seq<Write>, indent: int, first: bool, ws: seq<Write>)
    requires Separated(s, out, indent, first) <= ws
    ensures |out| <= |Separated(s, out, indent, first)| &&
      ReadFlowItems(ws, |out|) == ReadFlowItems(ws, |Separated(s, out, indent, first)|)
    ensures ReadFlowPairs(ws, |out|) == ReadFlowPairs(ws, |Separated(s, out, indent, first)|)
  {
    var before := Separated(s, out, indent, first);
    assert forall k :: |out| <= k < |before| ==> ws[k] == before[k] && (before[k].Indent? || before[k] == Tight(","));
    if |before| > |out| {
      SkipOne(ws, |out|);
      if |before| > |out| + 1 {
        SkipOne(ws, |out| + 1);
      }
    }
  }

  lemma SkipOne(ws: seq<Write>, i: nat)
    requires i < |ws| && (ws[i].Indent? || ws[i] == Tight(","))
    ensures ReadFlowItems(ws, i) == ReadFlowItems(ws, i + 1) && ReadFlowPairs(ws, i) == ReadFlowPairs(ws, i + 1)
  {
  }

  lemma ClosingRead(s: Settings, out: seq<Write>, indent: int, first: bool, ws: seq<Write>)
    ensures var r := Closed(s, out, "]", indent, first); r <= ws ==>
      ReadFlowItems(ws, |out|) == Found([Start(SequenceEnd, "")], |r|)
    ensures var r := Closed(s, out, "}", indent, first); r <= ws ==>
      ReadFlowPairs(ws, |out|) == Found([Start(MappingEnd, "")], |r|)
  {
    var n := |Closed(s, out, "]", indent, first)| - 1;
    if Closed(s, out, "]", indent, first) <= ws {
      var r := Closed(s, out, "]", indent, first);
      assert forall k :: |out| <= k < n ==> ws[k] == r[k] && (r[k].Indent? || r[k] == Tight(","));
      if n > |out| {
        SkipOne(ws, |out|);
        SkipOne(ws, |out| + 1);
      }
      assert ws[n] == r[n] == Tight("]");
    }
    if Closed(s, out, "}", indent, first) <= ws {
      var r := Closed(s, out, "}", indent, first);
      assert forall k :: |out| <= k < n ==> ws[k] == r[k] && (r[k].Indent? || r[k] == Tight(","));
      if n > |out| {
        SkipOne(ws, |out|);
        SkipOne(ws, |out| + 1);
      }
      assert ws[n] == r[n] == Tight("}");
    }
  }

  /** A node in flow style starts with neither a separator nor an end. */
  lemma ItemUnfolds(ws: seq<Write>, i: nat)
    requires i < |ws| && StartsNode(ws[i])
    ensures ReadFlowItems(ws, i) ==
      (var item := ReadNode(ws, i); if item.Lost? || item.pos <= i then Lost
          else After(item.shapes, ReadFlowItems(ws, item.pos)))
    ensures ReadFlowPairs(ws, i) ==
      (var key := ReadNode(ws, i); if key.Lost? || key.pos <= i then Lost
          else After(key.shapes, ReadFlowValue(ws, key.pos)))
  {
    hide ReadNode;
  }

  lemma LevelIsFlow(s: Settings, es: seq<Event>, pos: nat, level: nat)
    requires pos < |es| && level > 0
    ensures Inline(s, es, pos, level)
  {
  }

  lemma {:induction false} FlowItemsRead(s: Settings, es: seq<Event>, pos: nat, out: seq<Write>, outer: int, inner: int,
      level: nat, first: bool, base: seq<Frame>, ws: seq<Write>)
    requires Legal(es, pos, Doc(base + [SeqFrame])) && Sane(s, es, inner) && level > 0
    requires FlowItems(s, es, pos, out, outer, inner, level, first).out <= ws
    ensures var r := FlowItems(s, es, pos, out, outer, inner, level, first);
      pos <= r.pos <= |es| && ReadFlowItems(ws, |out|) == Found(Shapes(es[pos..r.pos]), |r.out|)
    decreases |es| - pos, 1
  {
    hide Legal, Step, Node, Separated, Closed, ReadFlowItems, ReadNode, StartsNode, Inline;
    Next(es, pos, Doc(base + [SeqFrame]));
    Steps(base, SeqFrame, es[pos].kind);
    var r := FlowItems(s, es, pos, out, outer, inner, level, first);
    if IsNode(es[pos].kind) {
      var before := Separated(s, out, inner, first);
      var item := Node(s, es, pos, before, inner, level, ITEM);
      NodeDone(s, es, pos, before, inner, level, ITEM, base, SeqFrame);
      FlowItemsDone(s, es, item.pos, item.out, outer, inner, level, false, base);
      NodeStarts(s, es, pos, before, inner, level, ITEM, base, SeqFrame);
      LevelIsFlow(s, es, pos, level);
      ItemsSkip(s, out, inner, first, ws);
      ItemUnfolds(ws, |before|);
      NodeReads(s, es, pos, before, inner, level, ITEM, base, SeqFrame, ws);
      FlowItemsRead(s, es, item.pos, item.out, outer, inner, level, false, base, ws);
      Joined(es, pos, item.pos, r.pos);
    } else {
      ClosingRead(s, out, outer, first, ws);
      One(es, pos);
    }
  }

  lemma {:induction false} FlowPairsRead(s: Settings, es: seq<Event>, pos: nat, out: seq<Write>, outer: int, inner: int,
      level: nat, first: bool, base: seq<Frame>, ws: seq<Write>)
    requires Legal(es, pos, Doc(base + [MapFrame(true)])) && Sane(s, es, inner) && level > 0
    requires FlowPairs(s, es, pos, out, outer, inner, level, first).out <= ws
    ensures var r := FlowPairs(s, es, pos, out, outer, inner, level, first);
      pos <= r.pos <= |es| && ReadFlowPairs(ws, |out|) == Found(Shapes(es[pos..r.pos]), |r.out|)
    decreases |es| - pos, 1
  {
    hide Legal, Step, Node, Separated, Closed, ReadFlowPairs, ReadNode, StartsNode, Inline, SimpleKey, FlowValue,
      ReadFlowValue, Shapes;
    Next(es, pos, Doc(base + [MapFrame(true)]));
    Steps(base, MapFrame(true), es[pos].kind);
    var r := FlowPairs(s, es, pos, out, outer, inner, level, first);
    if IsNode(es[pos].kind) {
      var line := Separated(s, out, inner, first);
      var simple := !s.canonical && SimpleKey(s, es, pos);
      var before := if simple then line else line + [Spaced("?")];
      var key := Node(s, es, pos, before, inner, level, KEY(simple));
      NodeDone(s, es, pos, before, inner, level, KEY(simple), base, MapFrame(true));
      FlowValueDone(s, es, key.pos, key.out, outer, inner, level, simple, base);
      NodeStarts(s, es, pos, before, inner, level, KEY(simple), base, MapFrame(true));
      LevelIsFlow(s, es, pos, level);
      ItemsSkip(s, out, inner, first, ws);
      if simple {
        ItemUnfolds(ws, |before|);
      } else {
        assert ws[|line|] == before[|line|];
        KeyUnfolds(ws, |line|);
      }
      NodeReads(s, es, pos, before, inner, level, KEY(simple), base, MapFrame(true), ws);
      FlowValueRead(s, es, key.pos, key.out, outer, inner, level, simple, base, ws);
      Joined(es, pos, key.pos, r.pos);
    } else {
      ClosingRead(s, out, outer, first, ws);
      One(es, pos);
    }
  }

  lemma KeyUnfolds(ws: seq<Write>, i: nat)
    requires i < |ws| && ws[i] == Spaced("?")
    ensures ReadFlowPairs(ws, i) ==
      (var key := ReadNode(ws, i + 1); if key.Lost? then Lost else After(key.shapes, ReadFlowValue(ws, key.pos)))
  {
    hide ReadNode;
  }

  lemma ValueUnfolds(ws: seq<Write>, i: nat)
    requires i < |ws|
    ensures ws[i] == Tight(":") || ws[i] == Spaced(":") ==>
      ReadFlowValue(ws, i) ==
        (var value := ReadNode(ws, i + 1);
         if value.Lost? then Lost else After(value.shapes, ReadFlowPairs(ws, value.pos)))
    ensures ws[i].Indent? ==> ReadFlowValue(ws, i) == ReadFlowValue(ws, i + 1)
  {
    hide ReadNode;
  }

  /** The indicator of a value is found. */
  lemma FlowColon(s: Settings, out: seq<Write>, inner: int, simple: bool, ws: seq<Write>)
    requires (if simple then out + [Tight(":")] else Wrapped(s, out, inner) + [Spaced(":")]) <= ws
    ensures var i := (if simple then |out| else |Wrapped(s, out, inner)|) + 1;
      && i <= |ws|
      && ReadFlowValue(ws, |out|) ==
          (var value := ReadNode(ws, i);
           if value.Lost? then Lost else After(value.shapes, ReadFlowPairs(ws, value.pos)))
  {
    hide ReadNode, ReadFlowValue, ReadFlowPairs;
    var line := if simple then out else Wrapped(s, out, inner);
    var before := line + [if simple then Tight(":") else Spaced(":")];
    assert before <= ws && ws[|line|] == before[|line|];
    ValueUnfolds(ws, |line|);
    if |line| > |out| {
      assert ws[|out|] == before[|out|];
      ValueUnfolds(ws, |out|);
    }
  }

  lemma {:induction false} FlowValueRead(s: Settings, es: seq<Event>, pos: nat, out: seq<Write>, outer: int, inner: int,
      level: nat, simple: bool, base: seq<Frame>, ws: seq<Write>)
    requires Legal(es, pos, Doc(base + [MapFrame(false)])) && Sane(s, es, inner) && level > 0
    requires FlowValue(s, es, pos, out, outer, inner, level, simple).out <= ws
    ensures var r := FlowValue(s, es, pos, out, outer, inner, level, simple);
      pos <= r.pos <= |es| && ReadFlowValue(ws, |out|) == Found(Shapes(es[pos..r.pos]), |r.out|)
    decreases |es| - pos, 1
  {
    hide Legal, Step, Node, ReadFlowPairs, ReadNode, FlowPairs, ReadFlowValue, Wrapped, Shapes, Inline, StartsNode;
    Next(es, pos, Doc(base + [MapFrame(false)]));
    Steps(base, MapFrame(false), es[pos].kind);
    var r := FlowValue(s, es, pos, out, outer, inner, level, simple);
    var line := if simple then out else Wrapped(s, out, inner);
    var before := line + [if simple then Tight(":") else Spaced(":")];
    var value := Node(s, es, pos, before, inner, level, VALUE);
    NodeDone(s, es, pos, before, inner, level, VALUE, base, MapFrame(false));
    FlowPairsDone(s, es, value.pos, value.out, outer, inner, level, false, base);
    FlowColon(s, out, inner, simple, ws);
    NodeReads(s, es, pos, before, inner, level, VALUE, base, MapFrame(false), ws);
    FlowPairsRead(s, es, value.pos, value.out, outer, inner, level, false, base, ws);
    Joined(es, pos, value.pos, r.pos);
  }

  // ----- Block collections -------------------------------------------------------------

  /** What follows the items of a block sequence does not go on with the last one of them. */
  lemma ItemStops(ws: seq<Write>, p: nat, indent: int, mapping: bool, inner: int)
    requires p <= |ws| && Stops(ws, p, indent, mapping) && (inner > indent || (inner == indent && mapping))
    ensures Stops(ws, p, inner, false) && (inner > indent ==> Stops(ws, p, inner, true))
    ensures ReadBlockItems(ws, p, inner) == Found([Start(SequenceEnd, "")], p)
    ensures inner > indent ==> ReadBlockPairs(ws, p, inner) == Found([Start(MappingEnd, "")], p)
  {
    hide ReadNode;
  }

  lemma ItemsGoOn(ws: seq<Write>, p: nat, inner: int)
    requires p + 1 < |ws| && ws[p] == Indent(inner) && ws[p + 1] == Compact("-")
    ensures Stops(ws, p, inner, false)
    ensures ReadBlockItems(ws, p, inner) ==
      (var item := ReadNode(ws, p + 2); if item.Lost? then Lost
          else After(item.shapes, ReadBlockItems(ws, item.pos, inner)))
  {
    hide ReadNode;
  }

  /** At each item, and at the end, of a block sequence the item before is over. */
  lemma ItemsStop(s: Settings, es: seq<Event>, pos: nat, out: seq<Write>, inner: int, indent: int, mapping: bool,
      base: seq<Frame>, ws: seq<Write>)
    requires Legal(es, pos, Doc(base + [SeqFrame])) && inner >= 0 && (inner > indent || (inner == indent && mapping))
    requires var r := BlockItems(s, es, pos, out, inner, 0); r.out <= ws && Stops(ws, |r.out|, indent, mapping)
    ensures Stops(ws, |out|, inner, false)
  {
    hide Legal, Step, Node, Stops;
    Next(es, pos, Doc(base + [SeqFrame]));
    Steps(base, SeqFrame, es[pos].kind);
    if IsNode(es[pos].kind) {
      var line := out + [IndentTo(inner), Compact("-")];
      var item := Node(s, es, pos, line, inner, 0, ITEM);
      NodeDone(s, es, pos, line, inner, 0, ITEM, base, SeqFrame);
      BlockItemsDone(s, es, item.pos, item.out, inner, 0, base);
      assert line <= ws && ws[|out|] == line[|out|] && ws[|out| + 1] == line[|out| + 1];
      ItemsGoOn(ws, |out|, inner);
    } else {
      ItemStops(ws, |out|, indent, mapping, inner);
    }
  }

  lemma {:induction false} BlockItemsRead(s: Settings, es: seq<Event>, pos: nat, out: seq<Write>, inner: int,
      indent: int, mapping: bool, base: seq<Frame>, ws: seq<Write>)
    requires Legal(es, pos, Doc(base + [SeqFrame])) && Sane(s, es, indent)
    requires inner >= 0 && (inner > indent || (inner == indent && mapping))
    requires var r := BlockItems(s, es, pos, out, inner, 0); r.out <= ws && Stops(ws, |r.out|, indent, mapping)
    ensures var r := BlockItems(s, es, pos, out, inner, 0);
      && pos <= r.pos <= |es| && |out| <= |ws|
      && ReadBlockItems(ws, |out|, inner) == Found(Shapes(es[pos..r.pos]), |r.out|)
    decreases |es| - pos, 1
  {
    hide Legal, Step, Node, Stops, ReadBlockItems, ReadNode;
    Next(es, pos, Doc(base + [SeqFrame]));
    Steps(base, SeqFrame, es[pos].kind);
    var r := BlockItems(s, es, pos, out, inner, 0);
    if IsNode(es[pos].kind) {
      var line := out + [IndentTo(inner), Compact("-")];
      var item := Node(s, es, pos, line, inner, 0, ITEM);
      NodeDone(s, es, pos, line, inner, 0, ITEM, base, SeqFrame);
      BlockItemsDone(s, es, item.pos, item.out, inner, 0, base);
      assert line <= ws && ws[|out|] == line[|out|] && ws[|out| + 1] == line[|out| + 1];
      ItemsGoOn(ws, |out|, inner);
      ItemsStop(s, es, item.pos, item.out, inner, indent, mapping, base, ws);
      NodeReads(s, es, pos, line, inner, 0, ITEM, base, SeqFrame, ws);
      BlockItemsRead(s, es, item.pos, item.out, inner, indent, mapping, base, ws);
      Joined(es, pos, item.pos, r.pos);
    } else {
      ItemStops(ws, |out|, indent, mapping, inner);
      One(es, pos);
    }
  }

  lemma PairsGoOn(ws: seq<Write>, p: nat, inner: int)
    requires p + 1 < |ws| && ws[p] == Indent(inner) && (ws[p + 1] == Compact("?") || StartsNode(ws[p + 1]))
    ensures Stops(ws, p, inner, true)
    ensures ReadBlockPairs(ws, p, inner) ==
      (var key := ReadNode(ws, if ws[p + 1] == Compact("?") then p + 2 else p + 1);
       if key.Lost? then Lost else After(key.shapes, ReadBlockValue(ws, key.pos, inner)))
  {
    hide ReadNode;
  }

  /** The line of a key: its indentation, and an indicator or the start of the key. */
  lemma KeyLine(s: Settings, es: seq<Event>, pos: nat, out: seq<Write>, inner: int, base: seq<Frame>, ws: seq<Write>)
    requires Legal(es, pos, Doc(base + [MapFrame(true)])) && inner >= 0 && pos < |es| && IsNode(es[pos].kind) &&
      Named(es)
    requires BlockPairs(s, es, pos, out, inner, 0).out <= ws
    ensures |out| + 1 < |ws| && ws[|out|] == Indent(inner)
    ensures if SimpleKey(s, es, pos) then StartsNode(ws[|out| + 1]) else ws[|out| + 1] == Compact("?")
  {
    hide Legal, Step, Node, SimpleKey, BlockValue, Inline, StartsNode;
    var simple := SimpleKey(s, es, pos);
    var line := out + [IndentTo(inner)];
    var before := if simple then line else line + [Compact("?")];
    var key := Node(s, es, pos, before, inner, 0, KEY(simple));
    NodeDone(s, es, pos, before, inner, 0, KEY(simple), base, MapFrame(true));
    NodeStarts(s, es, pos, before, inner, 0, KEY(simple), base, MapFrame(true));
    BlockValueDone(s, es, key.pos, key.out, inner, 0, simple, base);
    if simple {
      SimpleIsInline(s, es, pos, 0);
    }
    assert before <= ws && ws[|out|] == before[|out|];
  }

  lemma PairsStop(s: Settings, es: seq<Event>, pos: nat, out: seq<Write>, inner: int, indent: int, mapping: bool,
      base: seq<Frame>, ws: seq<Write>)
    requires Legal(es, pos, Doc(base + [MapFrame(true)])) && inner >= 0 && inner > indent && Named(es)
    requires var r := BlockPairs(s, es, pos, out, inner, 0); r.out <= ws && Stops(ws, |r.out|, indent, mapping)
    ensures Stops(ws, |out|, inner, true)
  {
    hide Legal, Step, Node, Stops, SimpleKey, BlockValue, StartsNode;
    Next(es, pos, Doc(base + [MapFrame(true)]));
    Steps(base, MapFrame(true), es[pos].kind);
    if IsNode(es[pos].kind) {
      KeyLine(s, es, pos, out, inner, base, ws);
      PairsGoOn(ws, |out|, inner);
    } else {
      ItemStops(ws, |out|, indent, mapping, inner);
    }
  }

  lemma NotQuestion(w: Write)
    requires StartsNode(w)
    ensures w != Compact("?")
  {
  }

  lemma {:induction false} BlockPairsRead(s: Settings, es: seq<Event>, pos: nat, out: seq<Write>, inner: int,
      indent: int, mapping: bool, base: seq<Frame>, ws: seq<Write>)
    requires Legal(es, pos, Doc(base + [MapFrame(true)])) && Sane(s, es, indent) && inner >= 0 && inner > indent
    requires var r := BlockPairs(s, es, pos, out, inner, 0); r.out <= ws && Stops(ws, |r.out|, indent, mapping)
    ensures var r := BlockPairs(s, es, pos, out, inner, 0);
      && pos <= r.pos <= |es| && |out| <= |ws|
      && ReadBlockPairs(ws, |out|, inner) == Found(Shapes(es[pos..r.pos]), |r.out|)
    decreases |es| - pos, 1
  {
    hide Legal, Step, Node, Stops, ReadBlockPairs, ReadNode, SimpleKey, BlockValue, StartsNode, ReadBlockValue,
      Shapes;
    Next(es, pos, Doc(base + [MapFrame(true)]));
    Steps(base, MapFrame(true), es[pos].kind);
    var r := BlockPairs(s, es, pos, out, inner, 0);
    if IsNode(es[pos].kind) {
      var simple := SimpleKey(s, es, pos);
      var line := out + [IndentTo(inner)];
      var before := if simple then line else line + [Compact("?")];
      var key := Node(s, es, pos, before, inner, 0, KEY(simple));
      NodeDone(s, es, pos, before, inner, 0, KEY(simple), base, MapFrame(true));
      BlockValueDone(s, es, key.pos, key.out, inner, 0, simple, base);
      KeyLine(s, es, pos, out, inner, base, ws);
      PairsGoOn(ws, |out|, inner);
      if simple {
        NotQuestion(ws[|out| + 1]);
      }
      ValueMark(s, es, key.pos, key.out, inner, simple, base, ws);
      NodeReads(s, es, pos, before, inner, 0, KEY(simple), base, MapFrame(true), ws);
      BlockValueRead(s, es, key.pos, key.out, inner, indent, mapping, simple, base, ws);
      Joined(es, pos, key.pos, r.pos);
    } else {
      ItemStops(ws, |out|, indent, mapping, inner);
      One(es, pos);
    }
  }

  /** What comes before a value ends the key. */
  lemma ValueMark(s: Settings, es: seq<Event>, pos: nat, out: seq<Write>, inner: int, simple: bool, base: seq<Frame>,
      ws: seq<Write>)
    requires Legal(es, pos, Doc(base + [MapFrame(false)])) && inner >= 0
    requires BlockValue(s, es, pos, out, inner, 0, simple).out <= ws
    ensures Stops(ws, |out|, inner, true)
    ensures ReadBlockValue(ws, |out|, inner) ==
      (var value := ReadNode(ws, if simple then |out| + 1 else |out| + 2);
       if value.Lost? then Lost else After(value.shapes, ReadBlockPairs(ws, value.pos, inner)))
  {
    hide Legal, Step, Node, ReadNode, BlockPairs;
    Next(es, pos, Doc(base + [MapFrame(false)]));
    Steps(base, MapFrame(false), es[pos].kind);
    var before := out + if simple then [Tight(":")] else [IndentTo(inner), Compact(":")];
    var value := Node(s, es, pos, before, inner, 0, VALUE);
    NodeDone(s, es, pos, before, inner, 0, VALUE, base, MapFrame(false));
    BlockPairsDone(s, es, value.pos, value.out, inner, 0, base);
    assert before <= ws && ws[|out|] == before[|out|];
    if !simple {
      assert ws[|out| + 1] == before[|out| + 1];
    }
  }

  lemma {:induction false} BlockValueRead(s: Settings, es: seq<Event>, pos: nat, out: seq<Write>, inner: int,
      indent: int, mapping: bool, simple: bool, base: seq<Frame>, ws: seq<Write>)
    requires Legal(es, pos, Doc(base + [MapFrame(false)])) && Sane(s, es, indent) && inner >= 0 && inner > indent
    requires var r := BlockValue(s, es, pos, out, inner, 0, simple); r.out <= ws && Stops(ws, |r.out|, indent, mapping)
    ensures var r := BlockValue(s, es, pos, out, inner, 0, simple);
      && pos <= r.pos <= |es|
      && ReadBlockValue(ws, |out|, inner) == Found(Shapes(es[pos..r.pos]), |r.out|)
    decreases |es| - pos, 1
  {
    hide Legal, Step, Node, Stops, ReadBlockPairs, ReadNode, BlockPairs, ReadBlockValue;
    Next(es, pos, Doc(base + [MapFrame(false)]));
    Steps(base, MapFrame(false), es[pos].kind);
    var r := BlockValue(s, es, pos, out, inner, 0, simple);
    var before := out + if simple then [Tight(":")] else [IndentTo(inner), Compact(":")];
    var value := Node(s, es, pos, before, inner, 0, VALUE);
    NodeDone(s, es, pos, before, inner, 0, VALUE, base, MapFrame(false));
    BlockPairsDone(s, es, value.pos, value.out, inner, 0, base);
    ValueMark(s, es, pos, out, inner, simple, base, ws);
    PairsStop(s, es, value.pos, value.out, inner, indent, mapping, base, ws);
    NodeReads(s, es, pos, before, inner, 0, VALUE, base, MapFrame(false), ws);
    BlockPairsRead(s, es, value.pos, value.out, inner, indent, mapping, base, ws);
    Joined(es, pos, value.pos, r.pos);
  }

  // ----- Documents are read back -------------------------------------------------------

  function InDocument(s: Settings, e: Event): Settings {
    s.(directives := AddMissing(e.tagDirectives, DEFAULT_DIRECTIVES))
  }

  /** The root node of the document that starts at `pos`. */
  function Root(s: Settings, es: seq<Event>, pos: nat, out: seq<Write>, first: bool): Printed
    requires pos < |es|
  {
    Node(InDocument(s, es[pos]), es, pos + 1, Head(s, es[pos], out, first), -1, 0, ROOT)
  }

  function Footed(e: Event, out: seq<Write>): seq<Write> {
    out + [Indent(0)] + if e.implicit then [] else [Spaced("..."), Indent(0)]
  }

  lemma OneDocument(s: Settings, es: seq<Event>, pos: nat, out: seq<Write>, first: bool)
    requires Legal(es, pos, Stream) && pos < |es| && es[pos].kind == DocumentStart
    ensures Legal(es, pos + 1, Doc([DocFrame(false)])) && pos + 1 < |es| && IsNode(es[pos + 1].kind)
    ensures var r := Root(s, es, pos, out, first);
      && pos + 1 < r.pos < |es| && es[r.pos].kind == DocumentEnd && Legal(es, r.pos + 1, Stream)
      && Head(s, es[pos], out, first) <= r.out
      && Documents(s, es, pos, out, first)
           == Documents(s.(directives := []), es, r.pos + 1, Footed(es[r.pos], r.out), false)
  {
    hide Legal, Node, Head, AddMissing;
    var r := Root(s, es, pos, out, first);
    Next(es, pos, Stream);
    assert Step(Stream, DocumentStart) == Doc([DocFrame(false)]);
    assert [] + [DocFrame(false)] == [DocFrame(false)] && [] + [DocFrame(true)] == [DocFrame(true)];
    Next(es, pos + 1, Doc([DocFrame(false)]));
    Steps([], DocFrame(false), es[pos + 1].kind);
    NodeDone(InDocument(s, es[pos]), es, pos + 1, Head(s, es[pos], out, first), -1, 0, ROOT, [], DocFrame(false));
    Next(es, r.pos, Doc([DocFrame(true)]));
    Steps([], DocFrame(true), es[r.pos].kind);
    assert Step(Doc([DocFrame(true)]), DocumentEnd) == Stream;
    assert InDocument(s, es[pos]).(directives := []) == s.(directives := []);
    assert Documents(s, es, pos, out, first) == Body(InDocument(s, es[pos]), es, pos + 1, Head(s, es[pos], out, first));
    assert Body(InDocument(s, es[pos]), es, pos + 1, Head(s, es[pos], out, first))
        == Foot(InDocument(s, es[pos]), es, r.pos, r.out);
  }

  lemma AtStreamEnd(es: seq<Event>, pos: nat)
    requires Legal(es, pos, Stream) && pos < |es| && es[pos].kind == StreamEnd
    ensures pos + 1 == |es|
  {
    hide Run;
    Next(es, pos, Stream);
    AfterEnd(Kinds(es[pos + 1..]));
  }

  /** The end of the stream closes a document left open. */
  lemma StreamIsOver(s: Settings, es: seq<Event>, pos: nat, out: seq<Write>, first: bool)
    requires Legal(es, pos, Stream) && pos < |es| && es[pos].kind == StreamEnd
    ensures Documents(s, es, pos, out, first)
         == Printed(if s.pen(out).openEnded then out + [Spaced("..."), Indent(0)] else out, |es|)
  {
    hide Legal;
    AtStreamEnd(es, pos);
  }

  lemma StreamGoesOn(es: seq<Event>, pos: nat)
    requires Legal(es, pos, Stream)
    ensures pos < |es| && (es[pos].kind == StreamEnd || es[pos].kind == DocumentStart)
  {
    hide Legal;
    Next(es, pos, Stream);
  }

  /** All events are printed. */
  lemma {:induction false} DocumentsDone(s: Settings, es: seq<Event>, pos: nat, out: seq<Write>, first: bool)
    requires Legal(es, pos, Stream)
    ensures var r := Documents(s, es, pos, out, first); out <= r.out && r.pos == |es|
    decreases |es| - pos
  {
    hide Legal, Documents, Root, Head;
    StreamGoesOn(es, pos);
    if es[pos].kind == StreamEnd {
      StreamIsOver(s, es, pos, out, first);
    } else {
      OneDocument(s, es, pos, out, first);
      var r := Root(s, es, pos, out, first);
      HeadIs(s, es[pos], out, first);
      DocumentsDone(s.(directives := []), es, r.pos + 1, Footed(es[r.pos], r.out), false);
    }
  }

  /** Only the first document can do without an indicator. */
  predicate Bare(s: Settings, e: Event, first: bool) {
    e.implicit && first && !s.canonical && e.version == None && e.tagDirectives == []
  }

  function Preamble(s: Settings, e: Event, out: seq<Write>): seq<Write> {
    Versioned(s, e, out) + Directives(e.tagDirectives)
  }

  /** What is written at the start of a document, and that a reader can tell it from a root node. */
  lemma HeadIs(s: Settings, e: Event, out: seq<Write>, first: bool)
    ensures var head := Head(s, e, out, first);
      && out <= Preamble(s, e, out) && out <= head
      && head == if Bare(s, e, first) then out else Started(s, Preamble(s, e, out))
    ensures forall j :: |out| <= j < |Preamble(s, e, out)| ==> Preamble(s, e, out)[j] != Spaced("---")
    ensures var head := Head(s, e, out, first);
      !Bare(s, e, first) ==>
        && |out| + 1 < |head| && !StartsChild(head[|out|])
        && (head[|out|].Indent? ==> head[|out| + 1] == Spaced("---"))
  {
    hide StartsNode;
    var versioned := Versioned(s, e, out);
    DirectivesAre(e.tagDirectives);
    var head := Head(s, e, out, first);
    if !Bare(s, e, first) {
      var preamble := Preamble(s, e, out);
      assert head[|preamble|] == Indent(0) && head[|preamble| + 1] == Spaced("---");
      if |preamble| > |out| {
        assert head[|out|] == preamble[|out|];
        NoChild(head[|out|]);
      } else {
        NoChild(Indent(0));
      }
    } else {
      assert out + [] == out;
    }
  }

  lemma NoChild(w: Write)
    requires w.Indent? || w == Spaced("...") || w == Spaced("%YAML") || w == Spaced("%TAG") || w == Spaced("---")
    ensures !StartsChild(w)
  {
  }

  lemma {:induction false} DirectivesAre(ds: seq<TagDirective>)
    ensures forall j :: 0 <= j < |Directives(ds)| ==> Directives(ds)[j] != Spaced("---")
    ensures ds != [] ==> |Directives(ds)| > 1 && Directives(ds)[0] == Spaced("%TAG")
  {
    if ds != [] {
      DirectivesAre(ds[..|ds| - 1]);
    }
  }

  /** After the end of a document comes nothing that could be a child of its root node. */
  lemma DocumentsStart(s: Settings, es: seq<Event>, pos: nat, out: seq<Write>)
    requires Legal(es, pos, Stream)
    ensures var r := Documents(s, es, pos, out, false).out; |out| < |r| ==> !StartsChild(r[|out|])
  {
    hide Legal, Documents, Root, Head, StartsChild, Preamble;
    StreamGoesOn(es, pos);
    if es[pos].kind == StreamEnd {
      StreamIsOver(s, es, pos, out, false);
      NoChild(Spaced("..."));
    } else {
      OneDocument(s, es, pos, out, false);
      HeadIs(s, es[pos], out, false);
      var r := Root(s, es, pos, out, false);
      DocumentsDone(s.(directives := []), es, r.pos + 1, Footed(es[r.pos], r.out), false);
      var head := Head(s, es[pos], out, false);
      assert head <= Documents(s, es, pos, out, false).out;
      assert Documents(s, es, pos, out, false).out[|out|] == head[|out|];
    }
  }

  lemma {:induction false} NextIs(ws: seq<Write>, i: nat, k: nat)
    requires i <= k <= |ws| && forall j :: i <= j < k ==> ws[j] != Spaced("---")
    ensures k == |ws| ==> NextDocument(ws, i) == None
    ensures k < |ws| && ws[k] == Spaced("---") ==> NextDocument(ws, i) == Some(k + 1)
    decreases k - i
  {
    if i < k {
      NextIs(ws, i + 1, k);
    }
  }

  /** Where the root node of a document is read from. */
  lemma HeadRead(s: Settings, es: seq<Event>, pos: nat, out: seq<Write>, first: bool, from: nat, ws: seq<Write>)
    requires Legal(es, pos, Stream) && Named(es) && pos < |es| && es[pos].kind == DocumentStart
    requires from <= |out| <= |ws| && (first ==> from == |out|)
    requires Root(s, es, pos, out, first).out <= ws && forall j :: from <= j < |out| ==> ws[j] != Spaced("---")
    ensures |Head(s, es[pos], out, first)| < |Root(s, es, pos, out, first).out|
    ensures ReadDocuments(ws, from, first, s.canonical) == ReadDocument(ws, |Head(s, es[pos], out, first)|, s.canonical)
  {
    hide Legal, Node, Step, AddMissing, ReadDocument, StartsNode, Head, Inline, Preamble;
    var head := Head(s, es[pos], out, first);
    var r := Root(s, es, pos, out, first);
    OneDocument(s, es, pos, out, first);
    HeadIs(s, es[pos], out, first);
    assert [] + [DocFrame(false)] == [DocFrame(false)];
    NodeStarts(InDocument(s, es[pos]), es, pos + 1, head, -1, 0, ROOT, [], DocFrame(false));
    OpensMore(r.out, ws, |head|, Inline(InDocument(s, es[pos]), es, pos + 1, 0));
    if !Bare(s, es[pos], first) {
      var preamble := Preamble(s, es[pos], out);
      assert head <= ws && ws[|out|] == head[|out|] && ws[|out| + 1] == head[|out| + 1];
      forall j | from <= j < |preamble| + 1 ensures ws[j] != Spaced("---") {
        assert j >= |out| ==> ws[j] == head[j];
      }
      assert ws[|preamble| + 1] == head[|preamble| + 1];
      NextIs(ws, from, |preamble| + 1);
      NoChild(Spaced("---"));
      if s.canonical {
        assert ws[|preamble| + 2] == head[|preamble| + 2];
      }
    }
  }

  lemma {:induction false} DocumentsRead(s: Settings, es: seq<Event>, pos: nat, out: seq<Write>, first: bool, from: nat)
    requires Legal(es, pos, Stream) && Named(es) && s.bestIndent > 0
    requires from <= |out| && (first ==> from == |out|)
    requires forall j :: from <= j < |out| ==> out[j] != Spaced("---")
    ensures var ws := Documents(s, es, pos, out, first).out;
      ReadDocuments(ws, from, first, s.canonical) == Found(Shapes(es[pos..]), |ws|)
    decreases |es| - pos
  {
    hide Legal, Documents, Node, Body, AddMissing, ReadDocument, Stops, Shapes, ReadDocuments, Head;
    var ws := Documents(s, es, pos, out, first).out;
    DocumentsDone(s, es, pos, out, first);
    Next(es, pos, Stream);
    if es[pos].kind == StreamEnd {
      EndRead(s, es, pos, out, first, from);
    } else {
      OneDocument(s, es, pos, out, first);
      var r := Root(s, es, pos, out, first);
      var foot := Footed(es[r.pos], r.out);
      var s' := s.(directives := []);
      DocumentsDone(s', es, r.pos + 1, foot, false);
      assert r.out <= foot <= ws;
      HeadRead(s, es, pos, out, first, from, ws);
      RootRead(s, es, pos, out, first, ws);
      DocumentsRead(s', es, r.pos + 1, foot, false, |r.out|);
      DocumentUnfolds(ws, |Head(s, es[pos], out, first)|, s.canonical);
      WholeDocument(es, pos, r.pos);
    }
  }

  lemma DocumentUnfolds(ws: seq<Write>, i: nat, canonical: bool)
    ensures ReadDocument(ws, i, canonical) ==
      (var root := ReadNode(ws, i);
       if root.Lost? || root.pos <= i then Lost
       else After([Start(DocumentStart, "")] + root.shapes + [Start(DocumentEnd, "")],
              ReadDocuments(ws, root.pos, false, canonical)))
  {
    hide ReadNode, ReadDocuments;
  }

  lemma WholeDocument(es: seq<Event>, pos: nat, end: nat)
    requires pos < end < |es| && es[pos].kind == DocumentStart && es[end].kind == DocumentEnd
    ensures Shapes(es[pos..]) ==
      [Start(DocumentStart, "")] + Shapes(es[pos + 1..end]) + [Start(DocumentEnd, "")] + Shapes(es[end + 1..])
  {
  }

  /** The end of the stream is read. */
  lemma EndRead(s: Settings, es: seq<Event>, pos: nat, out: seq<Write>, first: bool, from: nat)
    requires Legal(es, pos, Stream) && pos < |es| && es[pos].kind == StreamEnd
    requires from <= |out| && (first ==> from == |out|)
    requires forall j :: from <= j < |out| ==> out[j] != Spaced("---")
    ensures var ws := Documents(s, es, pos, out, first).out;
      ReadDocuments(ws, from, first, s.canonical) == Found(Shapes(es[pos..]), |ws|)
  {
    hide Legal, StartsNode, StartsChild;
    var ws := Documents(s, es, pos, out, first).out;
    AtStreamEnd(es, pos);
    NextIs(ws, from, |ws|);
    NoChild(Spaced("..."));
    NoChildNoNode(Spaced("..."));
    assert es[pos..] == [es[pos]];
  }

  lemma NoChildNoNode(w: Write)
    requires !StartsChild(w)
    ensures !StartsNode(w)
  {
  }

  /** The root node of a document is read. */
  lemma RootRead(s: Settings, es: seq<Event>, pos: nat, out: seq<Write>, first: bool, ws: seq<Write>)
    requires Legal(es, pos, Stream) && Named(es) && s.bestIndent > 0 && pos < |es| && es[pos].kind == DocumentStart
    requires ws == Documents(s, es, pos, out, first).out
    ensures var r := Root(s, es, pos, out, first);
      && pos + 1 < r.pos <= |es| && |r.out| <= |ws|
      && ReadNode(ws, |Head(s, es[pos], out, first)|) == Found(Shapes(es[pos + 1..r.pos]), |r.out|)
  {
    hide Legal, Documents, Node, Body, AddMissing, Shapes, Head, ReadNode, StartsChild, Root;
    OneDocument(s, es, pos, out, first);
    var r := Root(s, es, pos, out, first);
    var e, foot := es[r.pos], Footed(es[r.pos], r.out);
    var s' := s.(directives := []);
    DocumentsDone(s', es, r.pos + 1, foot, false);
    DocumentsStart(s', es, r.pos + 1, foot);
    assert ws[|r.out|] == foot[|r.out|] == Indent(0);
    if !e.implicit {
      assert ws[|r.out| + 1] == foot[|r.out| + 1] == Spaced("...");
      NoChild(Spaced("..."));
    }
    assert Stops(ws, |r.out|, -1, false);
    RootReads(s, es, pos, out, first, ws);
  }

  lemma RootReads(s: Settings, es: seq<Event>, pos: nat, out: seq<Write>, first: bool, ws: seq<Write>)
    requires pos + 1 < |es| && Legal(es, pos + 1, Doc([DocFrame(false)])) && IsNode(es[pos + 1].kind)
    requires Named(es) && s.bestIndent > 0
    requires var r := Root(s, es, pos, out, first); r.out <= ws && Stops(ws, |r.out|, -1, false)
    ensures var r := Root(s, es, pos, out, first);
      && pos + 1 <= r.pos <= |es|
      && ReadNode(ws, |Head(s, es[pos], out, first)|) == Found(Shapes(es[pos + 1..r.pos]), |r.out|)
  {
    hide Legal, Node, AddMissing, Shapes, Head, ReadNode, Stops;
    assert [] + [DocFrame(false)] == [DocFrame(false)];
    NodeReads(InDocument(s, es[pos]), es, pos + 1, Head(s, es[pos], out, first), -1, 0, ROOT, [], DocFrame(false), ws);
  }

  /** What is printed for a whole stream is read back: the kinds of its events, their anchors and
    * their values, for all settings, pens and analyses of scalars. */
  lemma ReadBack(s: Settings, es: seq<Event>)
    requires Run(YamlEvents.Start, Kinds(es)) == End && Named(es)
    ensures Layout(s, es).pos == |es|
    ensures Read(Layout(s, es).out, s.canonical) == Found(Shapes(es), |Layout(s, es).out|)
  {
    hide Documents, ReadDocuments, Run;
    assert es[0..] == es;
    Next(es, 0, YamlEvents.Start);
    DocumentsDone(Normal(s), es, 1, [], true);
    DocumentsRead(Normal(s), es, 1, [], true, 0);
    assert Shapes(es) == [ShapeOf(es[0])] + Shapes(es[1..]);
  }

  // ----- Tags --------------------------------------------------------------------------

  ghost predicate DistinctHandles(ds: seq<TagDirective>) {
    forall i, j :: 0 <= i < j < |ds| ==> ds[i].handle != ds[j].handle
  }

  lemma {:induction false} PrefixAt(ds: seq<TagDirective>, i: nat)
    requires i < |ds| && DistinctHandles(ds)
    ensures YamlDescent.PrefixOf(ds, ds[i].handle) == Some(ds[i].prefix)
  {
    if i > 0 {
      assert ds[0].handle != ds[i].handle && ds[1..][i - 1] == ds[i];
      PrefixAt(ds[1..], i - 1);
    }
  }

  /** A tag is split by the first directive whose prefix it has. */
  lemma {:induction false} SplitAt(ds: seq<TagDirective>, tag: string) returns (i: nat)
    ensures i <= |ds|
    ensures i == |ds| ==> Split(ds, tag) == Tag("", tag)
    ensures i < |ds| ==> ds[i].prefix <= tag && Split(ds, tag) == Tag(ds[i].handle, tag[|ds[i].prefix|..])
  {
    if ds == [] {
      i := 0;
    } else if ds[0].prefix <= tag {
      i := 0;
    } else {
      i := SplitAt(ds[1..], tag);
      i := i + 1;
    }
  }

  ghost predicate Handled(ds: seq<TagDirective>) {
    DistinctHandles(ds) && forall i :: 0 <= i < |ds| ==> ds[i].handle != ""
  }

  /** The emitter and the parser add the default directives in the same way. */
  lemma SameDefaults(ds: seq<TagDirective>)
    ensures AddMissing(ds, DEFAULT_DIRECTIVES) == YamlDescent.WithDefaults(ds)
    ensures Handled(ds) ==> Handled(AddMissing(ds, DEFAULT_DIRECTIVES))
  {
    hide HasHandle, Handled;
    var one := DEFAULT_DIRECTIVES[1..];
    assert one[1..] == [] && one[0] == DEFAULT_DIRECTIVES[1];
    StillHandled(ds, DEFAULT_DIRECTIVES[0]);
    StillHandled(YamlDescent.AddDefault(ds, DEFAULT_DIRECTIVES[0]), DEFAULT_DIRECTIVES[1]);
  }

  lemma StillHandled(ds: seq<TagDirective>, d: TagDirective)
    requires d.handle != ""
    ensures Handled(ds) ==> Handled(YamlDescent.AddDefault(ds, d))
  {
  }

  /** A tag as it is written resolves to the tag of the event, with the directives of the document
    * that the parser has read. */
  lemma TagResolves(ds: seq<TagDirective>, tag: string, token: Token)
    requires Handled(ds) && tag != ""
    requires Tag(token.value, token.suffix) == Split(AddMissing(ds, DEFAULT_DIRECTIVES), tag)
    ensures YamlDescent.Resolved(Some(token), YamlDescent.WithDefaults(ds)) == Some(tag)
  {
    hide AddMissing, YamlDescent.WithDefaults, YamlDescent.PrefixOf, Split;
    var all := AddMissing(ds, DEFAULT_DIRECTIVES);
    SameDefaults(ds);
    var i := SplitAt(all, tag);
    if i < |all| {
      PrefixAt(all, i);
      assert all[i].prefix + tag[|all[i].prefix|..] == tag;
    }
  }
}
