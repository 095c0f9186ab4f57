/** The recursive builder from events to a tree of nodes (the `parser` type of decode.go).
  *
  * The event source is the sequence of events the YAML parser delivers; when it runs out
  * without STREAM-END, the parser has failed and so does the builder. The two panics of
  * the original are outcomes of their own, which are shown not to occur on the events of
  * any legal stream. */
module YamlBuilder {
  import opened Options
  import opened YamlEvents

  datatype NodeKind = DocumentNode | MappingNode | SequenceNode | ScalarNode | AliasNode

  /** `id` stands for the identity of the node: the index of the event it was made from. */
  datatype Node = Node(
    id: nat,
    kind: NodeKind,
    line: nat,
    column: nat,
    tag: string,
    value: string,
    implicit: bool,
    children: seq<Node>)

  datatype Outcome<+T> = Built(value: T) | ParserFailed | Panicked(message: string)

  // ----- What a tree keeps of its events -----------------------------------------------

  /** The part of an event that a tree preserves; of an end event only its kind. */
  datatype Kept = Kept(id: nat, kind: EventKind, line: nat, column: nat, tag: string, value: string, implicit: bool)
                | KeptEnd(kind: EventKind)

  function Keep(e: Event, id: nat): Kept {
    match e.kind
    case Scalar => Kept(id, Scalar, e.start.line, e.start.column, e.tag, e.value, e.implicit)
    case Alias => Kept(id, Alias, e.start.line, e.start.column, "", Name(e), false)
    case SequenceStart | MappingStart | DocumentStart => Kept(id, e.kind, e.start.line, e.start.column, "", "", false)
    case _ => KeptEnd(e.kind)
  }

  function Name(e: Event): string {
    if e.anchor == None then "" else e.anchor.value
  }

  function KeepAll(es: seq<Event>, from: nat, upto: nat): seq<Kept>
    requires from <= upto <= |es|
  {
    seq(upto - from, i requires 0 <= i < upto - from => Keep(es[from + i], from + i))
  }

  function FlattenNode(n: Node): seq<Kept> {
    match n.kind
    case ScalarNode => [Kept(n.id, Scalar, n.line, n.column, n.tag, n.value, n.implicit)]
    case AliasNode => [Kept(n.id, Alias, n.line, n.column, "", n.value, false)]
    case SequenceNode => Enclose(n, SequenceStart, FlattenNodes(n.children), SequenceEnd)
    case MappingNode => Enclose(n, MappingStart, FlattenNodes(n.children), MappingEnd)
    case DocumentNode => Enclose(n, DocumentStart, FlattenNodes(n.children), DocumentEnd)
  }

  function Enclose(n: Node, first: EventKind, inner: seq<Kept>, last: EventKind): seq<Kept> {
    [Kept(n.id, first, n.line, n.column, "", "", false)] + inner + [KeptEnd(last)]
  }

  function FlattenNodes(ns: seq<Node>): seq<Kept> {
    if ns == [] then [] else FlattenNode(ns[0]) + FlattenNodes(ns[1..])
  }

  lemma {:induction false} FlattenAppend(ns: seq<Node>, n: Node)
    ensures FlattenNodes(ns + [n]) == FlattenNodes(ns) + FlattenNode(n)
    decreases |ns|
  {
    if ns == [] {
      assert [] + [n] == [n];
    } else {
      assert (ns + [n])[0] == ns[0] && (ns + [n])[1..] == ns[1..] + [n];
      FlattenAppend(ns[1..], n);
    }
  }

  /** Documents hold one node, mappings an even number, and all nodes below are well formed. */
  predicate WellFormed(n: Node) {
    && (n.kind == MappingNode ==> |n.children| % 2 == 0)
    && (n.kind == DocumentNode ==> |n.children| == 1)
    && (n.kind == ScalarNode || n.kind == AliasNode ==> n.children == [])
    && forall c :: c in n.children ==> c.kind != DocumentNode && WellFormed(c)
  }

  /** What an anchor refers to: the last node before `to` that carries it. */
  function Anchors(es: seq<Event>, from: nat, upto: nat): map<string, nat>
    requires from <= upto <= |es|
  {
    if from == upto then map[]
    else
      var before := Anchors(es, from, upto - 1);
      if Anchored(es[upto - 1]) then before[es[upto - 1].anchor.value := upto - 1] else before
  }

  predicate Anchored(e: Event) {
    e.anchor != None && (e.kind == Scalar || e.kind == SequenceStart || e.kind == MappingStart)
  }

  lemma {:induction false} AnchorsAreLast(es: seq<Event>, from: nat, upto: nat, name: string)
    requires from <= upto <= |es|
    ensures name in Anchors(es, from, upto) <==>
            exists i :: from <= i < upto && Anchored(es[i]) && es[i].anchor.value == name
    ensures name in Anchors(es, from, upto) ==>
              var i := Anchors(es, from, upto)[name];
              && from <= i < upto && Anchored(es[i]) && es[i].anchor.value == name
              && forall j :: i < j < upto ==> !(Anchored(es[j]) && es[j].anchor.value == name)
    decreases upto
  {
    if from < upto {
      AnchorsAreLast(es, from, upto - 1, name);
    }
  }

  class Builder {
    const source: seq<Event>
    /** How many events have been read; the current one is the last of them. */
    var read: nat
    var event: Option<Event>
    var anchors: map<string, nat>
    /** Where the current document starts. */
    ghost var docStart: nat

    ghost predicate Valid()
      reads this
    {
      && 1 <= read <= |source|
      && event == Some(source[read - 1])
      && docStart <= read - 1
      && anchors == Anchors(source, docStart, read - 1)
      && Run(Start, Kinds(source)) != Reject
    }

    /** The grammar before the current event. */
    ghost function Before(): Grammar
      requires 1 <= read <= |source|
      reads this
    {
      Run(Start, Kinds(source)[..read - 1])
    }

    constructor (source: seq<Event>)
      ensures this.source == source && read == 0 && event == None && anchors == map[] && docStart == 0
    {
      this.source := source;
      read, event, anchors, docStart := 0, None, map[], 0;
    }

    /** Reads the next event. */
    method Skip() returns (ok: bool)
      requires read <= |source|
      modifies `read, `event
      ensures ok ==> read == old(read) + 1 <= |source| && event == Some(source[read - 1])
      ensures !ok ==> read == old(read) && event == old(event)
      ensures ok <==> old(read) < |source| && (old(event) == None || old(event).value.kind != StreamEnd)
    {
      if event != None && event.value.kind == StreamEnd {
        return false;
      }
      if read == |source| {
        return false;
      }
      event := Some(source[read]);
      read := read + 1;
      ok := true;
    }

    /** Moves past the current event, whose anchor has been recorded. */
    method Advance() returns (ok: bool)
      requires 1 <= read <= |source| && event == Some(source[read - 1]) && docStart <= read - 1
      requires anchors == Anchors(source, docStart, read) && Run(Start, Kinds(source)) != Reject
      modifies `read, `event
      ensures ok ==> Valid() && read == old(read) + 1
      ensures ok ==> Before() == Step(old(Before()), old(event).value.kind)
      ensures ok <==> old(read) < |source| && old(event).value.kind != StreamEnd
      ensures !ok && old(event).value.kind != StreamEnd ==> Run(Start, Kinds(source)) != End
    {
      ghost var last := event.value.kind;
      ok := Skip();
      if ok {
        LegalPrefix(Start, Kinds(source), read - 2);
      } else if last != StreamEnd {
        LegalPrefix(Start, Kinds(source), read - 1);
        assert Kinds(source)[..read] == Kinds(source);
      }
    }

    /** Records the anchor of the current event, if it has one, for node `id`. */
    method Anchor(id: nat)
      requires Valid() && id == read - 1 && event.value.kind != Alias && event.value.kind != DocumentEnd
      requires event.value.anchor != None ==> Anchored(event.value)
      modifies `anchors
      ensures anchors == Anchors(source, docStart, read)
    {
      if event.value.anchor != None {
        anchors := anchors[event.value.anchor.value := id];
      }
    }

    function MakeNode(kind: NodeKind): Node
      requires 1 <= read && event != None
      reads this
    {
      Node(read - 1, kind, event.value.start.line, event.value.start.column, "", "", false, [])
    }

    /** The node built since the event `from` holds exactly the events up to the current one. */
    ghost predicate Spans(n: Node, from: nat)
      reads this
    {
      && from + 1 < read <= |source|
      && n.id == from
      && WellFormed(n)
      && FlattenNode(n) == KeepAll(source, from, read - 1)
    }

    /** Whether a node starts at the current event, inside the open productions `frames`. */
    ghost predicate AtNode(frames: seq<Frame>)
      reads this
    {
      && Valid()
      && Before() == Doc(frames) && frames != []
      && event.value.kind != SequenceEnd && event.value.kind != MappingEnd && event.value.kind != DocumentEnd
    }

    ghost predicate AfterNode(frames: seq<Frame>)
      requires frames != []
      reads this
    {
      Valid() && Before() == Doc(FillTop(frames))
    }

    lemma NodeStarts(frames: seq<Frame>)
      requires AtNode(frames)
      ensures event.value.kind in {Scalar, Alias, SequenceStart, MappingStart}
      ensures WantsNode(frames[|frames| - 1]) && Step(Before(), event.value.kind) != Reject
    {
      LegalPrefix(Start, Kinds(source), read - 1);
    }

    method Parse(ghost frames: seq<Frame>) returns (r: Outcome<Option<Node>>)
      requires AtNode(frames) || (frames == [] && Valid() && Before() == Stream)
      modifies this
      ensures !r.Panicked?
      ensures r.ParserFailed? ==> Run(Start, Kinds(source)) != End
      ensures r.Built? && r.value == None ==>
                frames == [] && unchanged(this) && Valid() && event.value.kind == StreamEnd
      ensures r.Built? && r.value != None && frames != [] ==>
                && AfterNode(frames) && Spans(r.value.value, old(read) - 1)
                && r.value.value.kind != DocumentNode && docStart == old(docStart)
      ensures r.Built? && r.value != None && frames == [] ==>
                && Valid() && Before() == Stream && Spans(r.value.value, old(read) - 1)
                && r.value.value.kind == DocumentNode && docStart == old(read) - 1
      decreases |source| - read, 1
    {
      if frames == [] {
        LegalPrefix(Start, Kinds(source), read - 1);
      } else {
        NodeStarts(frames);
      }
      match event.value.kind
      case Scalar =>
        var n := ScalarNodeAt(frames);
        r := Wrap(n);
      case Alias =>
        var n := AliasNodeAt(frames);
        r := Wrap(n);
      case MappingStart =>
        var n := MappingAt(frames);
        r := Wrap(n);
      case SequenceStart =>
        var n := SequenceAt(frames);
        r := Wrap(n);
      case DocumentStart =>
        var n := DocumentAt();
        r := Wrap(n);
      case StreamEnd =>
        r := Built(None);
      case _ =>
        r := Panicked("attempted to parse unknown event");
    }

    method ScalarNodeAt(ghost frames: seq<Frame>) returns (r: Outcome<Node>)
      requires AtNode(frames) && event.value.kind == Scalar
      modifies this
      ensures !r.Panicked?
      ensures r.ParserFailed? ==> Run(Start, Kinds(source)) != End
      ensures r.Built? ==> AfterNode(frames) && Spans(r.value, old(read) - 1)
      ensures r.Built? ==> r.value.kind != DocumentNode && docStart == old(docStart)
    {
      NodeStarts(frames);
      var n := MakeNode(ScalarNode).(value := event.value.value, tag := event.value.tag,
          implicit := event.value.implicit);
      Anchor(n.id);
      var ok := Advance();
      assert ok ==> KeepAll(source, old(read) - 1, read - 1) == [Keep(source[old(read) - 1], old(read) - 1)];
      r := if ok then Built(n) else ParserFailed;
    }

    method AliasNodeAt(ghost frames: seq<Frame>) returns (r: Outcome<Node>)
      requires AtNode(frames) && event.value.kind == Alias
      modifies this
      ensures !r.Panicked?
      ensures r.ParserFailed? ==> Run(Start, Kinds(source)) != End
      ensures r.Built? ==> AfterNode(frames) && Spans(r.value, old(read) - 1)
      ensures r.Built? ==> r.value.kind != DocumentNode && docStart == old(docStart)
    {
      NodeStarts(frames);
      var n := MakeNode(AliasNode).(value := Name(event.value));
      var ok := Advance();
      assert ok ==> KeepAll(source, old(read) - 1, read - 1) == [Keep(source[old(read) - 1], old(read) - 1)];
      r := if ok then Built(n) else ParserFailed;
    }

    method SequenceAt(ghost frames: seq<Frame>) returns (r: Outcome<Node>)
      requires AtNode(frames) && event.value.kind == SequenceStart
      modifies this
      ensures !r.Panicked?
      ensures r.ParserFailed? ==> Run(Start, Kinds(source)) != End
      ensures r.Built? ==> AfterNode(frames) && Spans(r.value, old(read) - 1)
      ensures r.Built? ==> r.value.kind != DocumentNode && docStart == old(docStart)
      decreases |source| - read, 0
    {
      hide WellFormed, Run, Anchors, KeepAll, FlattenNodes, FlattenNode, Keep, Anchored, Holds;
      ghost var from, inner := read - 1, FillTop(frames) + [SeqFrame];
      NodeStarts(frames);
      var n := MakeNode(SequenceNode);
      Anchor(n.id);
      var ok := Advance();
      if !ok {
        return ParserFailed;
      }
      NoChildren(source, n, from);
      assert FillTop(inner) == inner;
      while event.value.kind != SequenceEnd
        invariant Valid() && from < read - 1 && docStart == old(docStart)
        invariant Before() == Doc(inner)
        invariant Holds(source, n, from, read - 1) && Opens(n, SequenceNode, source[from], from)
        decreases |source| - read
      {
        InCollection(inner);
        ghost var here := read - 1;
        var child := Parse(inner);
        if !child.Built? {
          return ParserFailed;
        }
        AddChild(source, n, from, here, read - 1, child.value.value);
        n := n.(children := n.children + [child.value.value]);
      }
      assert inner[..|inner| - 1] == FillTop(frames);
      CloseNode(source, n, from, read - 1);
      Unanchored(source, docStart, read - 1);
      ok := Advance();
      r := if ok then Built(n) else ParserFailed;
    }

    method MappingAt(ghost frames: seq<Frame>) returns (r: Outcome<Node>)
      requires AtNode(frames) && event.value.kind == MappingStart
      modifies this
      ensures !r.Panicked?
      ensures r.ParserFailed? ==> Run(Start, Kinds(source)) != End
      ensures r.Built? ==> AfterNode(frames) && Spans(r.value, old(read) - 1)
      ensures r.Built? ==> r.value.kind != DocumentNode && docStart == old(docStart)
      decreases |source| - read, 0
    {
      hide WellFormed, Run, Anchors, KeepAll, FlattenNodes, FlattenNode, Keep, Anchored, Holds;
      ghost var from, inner := read - 1, FillTop(frames) + [MapFrame(true)];
      NodeStarts(frames);
      var n := MakeNode(MappingNode);
      Anchor(n.id);
      var ok := Advance();
      if !ok {
        return ParserFailed;
      }
      NoChildren(source, n, from);
      while event.value.kind != MappingEnd
        invariant Valid() && from < read - 1 && docStart == old(docStart)
        invariant Before() == Doc(inner)
        invariant Holds(source, n, from, read - 1) && Opens(n, MappingNode, source[from], from)
        invariant |n.children| % 2 == 0
        decreases |source| - read
      {
        var pair := PairAt(inner, n, from);
        if !pair.Built? {
          return ParserFailed;
        }
        n := n.(children := n.children + pair.value);
      }
      assert inner[..|inner| - 1] == FillTop(frames);
      CloseNode(source, n, from, read - 1);
      Unanchored(source, docStart, read - 1);
      ok := Advance();
      r := if ok then Built(n) else ParserFailed;
    }

    /** A key and its value, to be added to the mapping `n` that starts at `from`. */
    method PairAt(ghost inner: seq<Frame>, ghost n: Node, ghost from: nat) returns (r: Outcome<seq<Node>>)
      requires Valid() && Before() == Doc(inner) && event.value.kind != MappingEnd
      requires inner != [] && inner[|inner| - 1] == MapFrame(true)
      requires Holds(source, n, from, read - 1)
      modifies this
      ensures !r.Panicked?
      ensures r.ParserFailed? ==> Run(Start, Kinds(source)) != End
      ensures r.Built? ==> Valid() && old(read) < read && docStart == old(docStart)
      ensures r.Built? ==> Before() == Doc(inner) && |r.value| == 2
      ensures r.Built? ==> Holds(source, n.(children := n.children + r.value), from, read - 1)
      decreases |source| - read, 2
    {
      hide Run, Anchors, KeepAll, FlattenNodes, FlattenNode, Keep, Anchored, Holds;
      ghost var afterKey := FillTop(inner);
      assert FillTop(afterKey) == inner;
      InCollection(inner);
      ghost var here := read - 1;
      var key := Parse(inner);
      if !key.Built? {
        return ParserFailed;
      }
      ghost var middle := read - 1;
      InCollection(afterKey);
      var value := Parse(afterKey);
      if !value.Built? {
        return ParserFailed;
      }
      AddChild(source, n, from, here, middle, key.value.value);
      ghost var withKey := n.(children := n.children + [key.value.value]);
      AddChild(source, withKey, from, middle, read - 1, value.value.value);
      assert withKey.children + [value.value.value] == n.children + [key.value.value, value.value.value];
      r := Built([key.value.value, value.value.value]);
    }

    /** Inside a collection only its own end or another node may follow. */
    lemma InCollection(frames: seq<Frame>)
      requires Valid() && Before() == Doc(frames) && frames != []
      requires frames[|frames| - 1] == SeqFrame ==> event.value.kind != SequenceEnd
      requires frames[|frames| - 1] == MapFrame(true) ==> event.value.kind != MappingEnd
      requires !frames[|frames| - 1].DocFrame?
      ensures AtNode(frames)
    {
      LegalPrefix(Start, Kinds(source), read - 1);
    }

    /** A document holds one node and then ends. */
    lemma InDocument(filled: bool)
      requires Valid() && Before() == Doc([DocFrame(filled)])
      ensures !filled ==> AtNode([DocFrame(false)])
      ensures filled ==> event.value.kind == DocumentEnd && Step(Before(), DocumentEnd) == Stream
    {
      LegalPrefix(Start, Kinds(source), read - 1);
    }

    method DocumentAt() returns (r: Outcome<Node>)
      requires Valid() && Before() == Stream && event.value.kind == DocumentStart
      modifies this
      ensures !r.Panicked?
      ensures r.ParserFailed? ==> Run(Start, Kinds(source)) != End
      ensures r.Built? ==> Valid() && Before() == Stream && Spans(r.value, old(read) - 1)
      ensures r.Built? ==> r.value.kind == DocumentNode && docStart == old(read) - 1
      decreases |source| - read, 0
    {
      hide WellFormed, Run, Anchors, KeepAll, FlattenNodes, FlattenNode, Keep, Anchored, Holds;
      ghost var from := read - 1;
      var n := MakeNode(DocumentNode);
      anchors, docStart := map[], read - 1;
      Unanchored(source, docStart, read - 1);
      NoChildren(source, n, from);
      var ok := Advance();
      if !ok {
        return ParserFailed;
      }
      InDocument(false);
      ghost var here := read - 1;
      var child := Parse([DocFrame(false)]);
      if !child.Built? {
        return ParserFailed;
      }
      AddChild(source, n, from, here, read - 1, child.value.value);
      n := n.(children := n.children + [child.value.value]);
      assert FillTop([DocFrame(false)]) == [DocFrame(true)];
      InDocument(true);
      if event.value.kind != DocumentEnd {
        return Panicked("expected end of document event");
      }
      CloseNode(source, n, from, read - 1);
      Unanchored(source, docStart, read - 1);
      ok := Advance();
      r := if ok then Built(n) else ParserFailed;
    }

    /** Reads STREAM-START and the event after it. */
    method NewParser() returns (r: Outcome<()>)
      requires read == 0 && event == None && docStart == 0 && anchors == map[]
      requires Run(Start, Kinds(source)) != Reject
      modifies this
      ensures !r.Panicked?
      ensures r.ParserFailed? ==> Run(Start, Kinds(source)) != End
      ensures r.Built? ==> Valid() && Before() == Stream
    {
      var ok := Skip();
      if !ok {
        return ParserFailed;
      }
      LegalPrefix(Start, Kinds(source), 0);
      if event.value.kind != StreamStart {
        return Panicked("expected stream start event");
      }
      assert Anchors(source, 0, 1) == map[] by {
        assert Anchors(source, 0, 0) == map[];
      }
      ok := Advance();
      r := if ok then Built(()) else ParserFailed;
    }
  }

  // ----- The lemmas of the loops -------------------------------------------------------

  function Wrap(r: Outcome<Node>): Outcome<Option<Node>> {
    match r
    case Built(n) => Built(Some(n))
    case ParserFailed => ParserFailed
    case Panicked(m) => Panicked(m)
  }

  predicate Opens(n: Node, kind: NodeKind, e: Event, id: nat) {
    n.id == id && n.kind == kind && n.line == e.start.line && n.column == e.start.column
    && n.tag == "" && n.value == "" && !n.implicit
  }

  /** The children of `n` so far hold the events after the start event `from`. */
  ghost predicate Holds(es: seq<Event>, n: Node, from: nat, upto: nat) {
    && from < upto <= |es|
    && FlattenNodes(n.children) == KeepAll(es, from + 1, upto)
    && forall c :: c in n.children ==> c.kind != DocumentNode && WellFormed(c)
  }

  lemma NoChildren(es: seq<Event>, n: Node, from: nat)
    requires from < |es| && n.children == []
    ensures Holds(es, n, from, from + 1)
  {
  }

  lemma Unanchored(es: seq<Event>, from: nat, upto: nat)
    requires from <= upto < |es| && es[upto].kind in {DocumentStart, SequenceEnd, MappingEnd, DocumentEnd}
    ensures Anchors(es, from, upto + 1) == Anchors(es, from, upto)
    ensures Anchors(es, from, from) == map[]
  {
  }

  lemma {:induction false} AddChild(es: seq<Event>, n: Node, from: nat, here: nat, upto: nat, child: Node)
    requires Holds(es, n, from, here) && here <= upto <= |es|
    requires WellFormed(child) && child.kind != DocumentNode && FlattenNode(child) == KeepAll(es, here, upto)
    ensures Holds(es, n.(children := n.children + [child]), from, upto)
  {
    FlattenAppend(n.children, child);
    assert KeepAll(es, from + 1, here) + KeepAll(es, here, upto) == KeepAll(es, from + 1, upto);
  }

  lemma {:induction false} CloseNode(es: seq<Event>, n: Node, from: nat, upto: nat)
    requires upto < |es| && Holds(es, n, from, upto)
    requires (Opens(n, SequenceNode, es[from], from) && es[from].kind == SequenceStart && es[upto].kind == SequenceEnd)
          || (Opens(n, MappingNode, es[from], from) && es[from].kind == MappingStart && es[upto].kind == MappingEnd)
          || (Opens(n, DocumentNode, es[from], from) && es[from].kind == DocumentStart && es[upto].kind == DocumentEnd)
    requires n.kind == MappingNode ==> |n.children| % 2 == 0
    requires n.kind == DocumentNode ==> |n.children| == 1
    ensures WellFormed(n) && FlattenNode(n) == KeepAll(es, from, upto + 1)
  {
    assert [Keep(es[from], from)] + KeepAll(es, from + 1, upto) + [Keep(es[upto], upto)] == KeepAll(es, from, upto + 1);
  }
}
