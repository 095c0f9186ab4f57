/** The events exchanged by the YAML parser, the tree builder and the emitter, and the
  * grammar of well-formed event streams.
  *
  * The grammar is given twice: as a pushdown acceptor (`Step`, `Run`), which is what the
  * state machines are compared with, and as the set of flattenings of node trees
  * (`StreamOf`). `StreamsAreFlattenedTrees` shows that the two define the same language. */
module YamlEvents {
  import opened Options

  datatype Mark = Mark(index: nat, line: nat, column: nat)

  datatype EventKind =
    | StreamStart | StreamEnd
    | DocumentStart | DocumentEnd
    | Alias | Scalar
    | SequenceStart | SequenceEnd
    | MappingStart | MappingEnd

  datatype Style = AnyStyle | Plain | SingleQuoted | DoubleQuoted | Literal | Folded | Block | Flow

  datatype TagDirective = TagDirective(handle: string, prefix: string)

  const DEFAULT_DIRECTIVES := [TagDirective("!", "!"), TagDirective("!!", "tag:yaml.org,2002:")]

  predicate HasHandle(ds: seq<TagDirective>, handle: string) {
    exists i :: 0 <= i < |ds| && ds[i].handle == handle
  }

  /** `yaml_event_t`; a tag that the event does not carry is empty. */
  datatype Event = Event(
    kind: EventKind,
    start: Mark,
    end: Mark,
    anchor: Option<string>,
    tag: string,
    value: string,
    implicit: bool,
    quotedImplicit: bool,
    style: Style,
    version: Option<(int, int)>,
    tagDirectives: seq<TagDirective>)

  function Kinds(events: seq<Event>): (ks: seq<EventKind>)
    ensures |ks| == |events|
  {
    seq(|events|, i requires 0 <= i < |events| => events[i].kind)
  }

  // ----- The acceptor ------------------------------------------------------------------

  /** An open production: a document (does it already hold its node?), a sequence, or a
    * mapping (is the next node a key?). */
  datatype Frame = DocFrame(filled: bool) | SeqFrame | MapFrame(key: bool)

  datatype Grammar = Start | Stream | Doc(frames: seq<Frame>) | End | Reject

  predicate WantsNode(f: Frame) {
    f != DocFrame(true)
  }

  /** The frame after one more child node. */
  function Fill(f: Frame): Frame {
    match f
    case DocFrame(_) => DocFrame(true)
    case SeqFrame => SeqFrame
    case MapFrame(key) => MapFrame(!key)
  }

  function FillTop(frames: seq<Frame>): (r: seq<Frame>)
    requires frames != []
    ensures |r| == |frames|
  {
    frames[..|frames| - 1] + [Fill(frames[|frames| - 1])]
  }

  function Step(g: Grammar, k: EventKind): Grammar {
    match g
    case Start => if k == StreamStart then Stream else Reject
    case Stream =>
      if k == DocumentStart then Doc([DocFrame(false)])
      else if k == StreamEnd then End
      else Reject
    case Doc(frames) =>
      if frames == [] then Reject else
      var top := frames[|frames| - 1];
      (match k
       case Alias | Scalar => if WantsNode(top) then Doc(FillTop(frames)) else Reject
       case SequenceStart => if WantsNode(top) then Doc(FillTop(frames) + [SeqFrame]) else Reject
       case MappingStart => if WantsNode(top) then Doc(FillTop(frames) + [MapFrame(true)]) else Reject
       case SequenceEnd => if top == SeqFrame then Doc(frames[..|frames| - 1]) else Reject
       case MappingEnd => if top == MapFrame(true) then Doc(frames[..|frames| - 1]) else Reject
       case DocumentEnd => if frames == [DocFrame(true)] then Stream else Reject
       case _ => Reject)
    case End => Reject
    case Reject => Reject
  }

  function Run(g: Grammar, ks: seq<EventKind>): Grammar
    decreases |ks|
  {
    if ks == [] then g else Run(Step(g, ks[0]), ks[1..])
  }

  lemma {:induction false} RunConcat(g: Grammar, a: seq<EventKind>, b: seq<EventKind>)
    ensures Run(g, a + b) == Run(Run(g, a), b)
    decreases |a|
  {
    if a == [] {
      assert a + b == b;
    } else {
      assert (a + b)[0] == a[0] && (a + b)[1..] == a[1..] + b;
      RunConcat(Step(g, a[0]), a[1..], b);
    }
  }

  lemma RunOne(g: Grammar, k: EventKind)
    ensures Run(g, [k]) == Step(g, k)
  {
    hide Step;
    assert [k][1..] == [];
  }

  lemma RunFirst(g: Grammar, k: EventKind, ks: seq<EventKind>)
    ensures Run(g, [k] + ks) == Run(Step(g, k), ks)
  {
    hide Step;
    assert ([k] + ks)[1..] == ks;
  }

  /** An accepted run goes on with a legal event, unless it is over. */
  lemma GoesOn(g: Grammar, ks: seq<EventKind>)
    requires Run(g, ks) == End && g != End
    ensures ks != [] && Step(g, ks[0]) != Reject && Run(Step(g, ks[0]), ks[1..]) == End
  {
    hide Step;
    if ks != [] {
      RunReject(ks[1..]);
    }
  }

  lemma {:induction false} RunReject(ks: seq<EventKind>)
    ensures Run(Reject, ks) == Reject
    decreases |ks|
  {
    if ks != [] {
      RunReject(ks[1..]);
    }
  }

  /** A run that has not been rejected was legal at every earlier point. */
  lemma LegalPrefix(g: Grammar, ks: seq<EventKind>, i: nat)
    requires i < |ks|
    requires Run(g, ks) != Reject
    ensures Run(g, ks[..i]) != Reject
    ensures Run(g, ks[..i + 1]) == Step(Run(g, ks[..i]), ks[i]) != Reject
  {
    assert ks == ks[..i] + ks[i..] && ks == ks[..i + 1] + ks[i + 1..];
    assert ks[..i + 1] == ks[..i] + [ks[i]];
    RunConcat(g, ks[..i], ks[i..]);
    RunConcat(g, ks[..i + 1], ks[i + 1..]);
    RunConcat(g, ks[..i], [ks[i]]);
    RunReject(ks[i..]);
    RunReject(ks[i + 1..]);
    assert Run(Run(g, ks[..i]), [ks[i]]) == Step(Run(g, ks[..i]), ks[i]);
  }

  // ----- The trees ---------------------------------------------------------------------

  datatype Tree =
    | Leaf(isAlias: bool)
    | Sequence(items: Forest)
    | Mapping(entries: Forest)

  datatype Forest = Nil | Cons(head: Tree, tail: Forest)

  function Size(f: Forest): nat {
    match f
    case Nil => 0
    case Cons(_, tail) => 1 + Size(tail)
  }

  /** Every mapping consists of key/value pairs. */
  predicate Paired(t: Tree) {
    match t
    case Leaf(_) => true
    case Sequence(items) => AllPaired(items)
    case Mapping(entries) => AllPaired(entries) && Size(entries) % 2 == 0
  }

  predicate AllPaired(f: Forest) {
    match f
    case Nil => true
    case Cons(head, tail) => Paired(head) && AllPaired(tail)
  }

  function Flatten(t: Tree): (ks: seq<EventKind>)
    ensures ks != []
  {
    match t
    case Leaf(isAlias) => [if isAlias then Alias else Scalar]
    case Sequence(items) => [SequenceStart] + FlattenAll(items) + [SequenceEnd]
    case Mapping(entries) => [MappingStart] + FlattenAll(entries) + [MappingEnd]
  }

  function FlattenAll(f: Forest): seq<EventKind> {
    match f
    case Nil => []
    case Cons(head, tail) => Flatten(head) + FlattenAll(tail)
  }

  /** Each document holds exactly one node. */
  function DocumentsOf(docs: Forest): seq<EventKind> {
    match docs
    case Nil => []
    case Cons(t, rest) => [DocumentStart] + Flatten(t) + [DocumentEnd] + DocumentsOf(rest)
  }

  function StreamOf(docs: Forest): seq<EventKind> {
    [StreamStart] + DocumentsOf(docs) + [StreamEnd]
  }

  // ----- Every flattened tree is accepted ----------------------------------------------

  lemma {:induction false} RunTree(frames: seq<Frame>, t: Tree)
    requires frames != [] && WantsNode(frames[|frames| - 1]) && Paired(t)
    ensures Run(Doc(frames), Flatten(t)) == Doc(FillTop(frames))
    decreases t
  {
    match t
    case Leaf(_) =>
    case Sequence(items) => RunCollection(frames, SequenceStart, items, SequenceEnd);
    case Mapping(entries) => RunCollection(frames, MappingStart, entries, MappingEnd);
  }

  lemma {:induction false} RunCollection(frames: seq<Frame>, first: EventKind, f: Forest, last: EventKind)
    requires frames != [] && WantsNode(frames[|frames| - 1]) && AllPaired(f)
    requires (first, last) == (SequenceStart, SequenceEnd)
          || ((first, last) == (MappingStart, MappingEnd) && Size(f) % 2 == 0)
    ensures Run(Doc(frames), [first] + FlattenAll(f) + [last]) == Doc(FillTop(frames))
    decreases f, 1
  {
    hide Run, FlattenAll;
    var inner := if first == SequenceStart then SeqFrame else MapFrame(true);
    var inside := FillTop(frames) + [inner];
    RunForest(inside, f);
    assert [first] + FlattenAll(f) + [last] == [first] + (FlattenAll(f) + [last]);
    RunFirst(Doc(frames), first, FlattenAll(f) + [last]);
    RunConcat(Doc(inside), FlattenAll(f), [last]);
    RunOne(Run(Doc(inside), FlattenAll(f)), last);
    assert FillMany(inner, Size(f)) == inner;
    assert (inside[..|inside| - 1] + [inner])[..|inside| - 1] == FillTop(frames);
  }

  function FillMany(f: Frame, n: nat): Frame {
    match f
    case DocFrame(filled) => DocFrame(filled || n > 0)
    case SeqFrame => SeqFrame
    case MapFrame(key) => MapFrame(if n % 2 == 0 then key else !key)
  }

  lemma {:induction false} RunForest(frames: seq<Frame>, f: Forest)
    requires frames != [] && !frames[|frames| - 1].DocFrame? && AllPaired(f)
    ensures Run(Doc(frames), FlattenAll(f))
         == Doc(frames[..|frames| - 1] + [FillMany(frames[|frames| - 1], Size(f))])
    decreases f, 0
  {
    match f
    case Nil =>
      assert frames[..|frames| - 1] + [frames[|frames| - 1]] == frames;
    case Cons(head, tail) =>
      RunTree(frames, head);
      RunConcat(Doc(frames), Flatten(head), FlattenAll(tail));
      RunForest(FillTop(frames), tail);
      assert FillMany(Fill(frames[|frames| - 1]), Size(tail)) == FillMany(frames[|frames| - 1], Size(f));
  }

  lemma {:induction false} RunDocuments(docs: Forest)
    requires AllPaired(docs)
    ensures Run(Stream, DocumentsOf(docs)) == Stream
    decreases docs
  {
    match docs
    case Nil =>
    case Cons(t, rest) =>
      var whole := [DocumentStart] + Flatten(t) + [DocumentEnd];
      RunTree([DocFrame(false)], t);
      assert whole[0] == DocumentStart && whole[1..] == Flatten(t) + [DocumentEnd];
      RunConcat(Doc([DocFrame(false)]), Flatten(t), [DocumentEnd]);
      assert FillTop([DocFrame(false)]) == [DocFrame(true)];
      assert Run(Doc([DocFrame(true)]), [DocumentEnd]) == Stream;
      RunConcat(Stream, whole, DocumentsOf(rest));
      RunDocuments(rest);
  }

  // ----- Every accepted stream is a flattened forest -----------------------------------

  /** From a point where a node is wanted, an accepted run starts with a whole node. */
  lemma {:induction false} SplitNode(frames: seq<Frame>, ks: seq<EventKind>) returns (t: Tree, rest: seq<EventKind>)
    requires frames != [] && WantsNode(frames[|frames| - 1])
    requires frames[|frames| - 1].DocFrame? || frames[|frames| - 1].MapFrame? || (ks != [] && ks[0] != SequenceEnd)
    requires frames[|frames| - 1] == MapFrame(true) ==> ks != [] && ks[0] != MappingEnd
    requires Run(Doc(frames), ks) == End
    ensures Paired(t) && ks == Flatten(t) + rest
    ensures Run(Doc(FillTop(frames)), rest) == End
    decreases |ks|, 1
  {
    hide Run;
    GoesOn(Doc(frames), ks);
    match ks[0] {
      case Alias =>
        t, rest := Leaf(true), ks[1..];
      case Scalar =>
        t, rest := Leaf(false), ks[1..];
      case SequenceStart =>
        var items;
        items, rest := SplitCollection(frames, ks, SeqFrame);
        t := Sequence(items);
      case MappingStart =>
        var entries;
        entries, rest := SplitCollection(frames, ks, MapFrame(true));
        t := Mapping(entries);
      case _ =>
        assert false;
    }
  }

  lemma {:induction false} SplitCollection(frames: seq<Frame>, ks: seq<EventKind>, inner: Frame)
    returns (f: Forest, rest: seq<EventKind>)
    requires frames != [] && ks != [] && (inner == SeqFrame || inner == MapFrame(true))
    requires Run(Doc(FillTop(frames) + [inner]), ks[1..]) == End
    ensures AllPaired(f) && Run(Doc(FillTop(frames)), rest) == End
    ensures ks == [ks[0]] + FlattenAll(f) + [if inner == SeqFrame then SequenceEnd else MappingEnd] + rest
    ensures inner == MapFrame(true) ==> Size(f) % 2 == 0
    decreases |ks|, 0
  {
    hide Run, Step, FlattenAll;
    f, rest := SplitForest(FillTop(frames) + [inner], ks[1..]);
    assert (FillTop(frames) + [inner])[..|frames|] == FillTop(frames);
    assert ks == [ks[0]] + ks[1..];
  }

  /** The rest of an open collection: its remaining children and its end event. */
  lemma {:induction false} SplitForest(frames: seq<Frame>, ks: seq<EventKind>) returns (f: Forest, rest: seq<EventKind>)
    requires frames != [] && !frames[|frames| - 1].DocFrame?
    requires Run(Doc(frames), ks) == End
    ensures AllPaired(f)
    ensures frames[|frames| - 1] == SeqFrame ==> ks == FlattenAll(f) + [SequenceEnd] + rest
    ensures frames[|frames| - 1].MapFrame? ==>
              ks == FlattenAll(f) + [MappingEnd] + rest && (Size(f) % 2 == 0 <==> frames[|frames| - 1].key)
    ensures Run(Doc(frames[..|frames| - 1]), rest) == End
    decreases |ks|, 2
  {
    hide Run, Flatten, Step, Paired;
    var top := frames[|frames| - 1];
    GoesOn(Doc(frames), ks);
    if ks != [] && ((top == SeqFrame && ks[0] == SequenceEnd) || (top == MapFrame(true) && ks[0] == MappingEnd)) {
      f, rest := Nil, ks[1..];
      StepsOut(frames, ks[0]);
      assert ks == [] + [ks[0]] + rest;
    } else {
      EndsMatch(frames, ks[0]);
      var t, after := SplitNode(frames, ks);
      var tail;
      tail, rest := SplitForest(FillTop(frames), after);
      f := Cons(t, tail);
      assert FillTop(frames)[..|frames| - 1] == frames[..|frames| - 1];
      if top == SeqFrame {
        NodeThen(ks, Flatten(t), after, FlattenAll(tail), SequenceEnd, rest);
      } else {
        NodeThen(ks, Flatten(t), after, FlattenAll(tail), MappingEnd, rest);
      }
    }
  }

  lemma StepsOut(frames: seq<Frame>, k: EventKind)
    requires frames != [] && (k == SequenceEnd || k == MappingEnd) && Step(Doc(frames), k) != Reject
    ensures Step(Doc(frames), k) == Doc(frames[..|frames| - 1])
  {
  }

  lemma EndsMatch(frames: seq<Frame>, k: EventKind)
    requires frames != [] && Step(Doc(frames), k) != Reject
    ensures k == SequenceEnd ==> frames[|frames| - 1] == SeqFrame
    ensures k == MappingEnd ==> frames[|frames| - 1] == MapFrame(true)
  {
  }

  lemma NodeThen(ks: seq<EventKind>, node: seq<EventKind>, after: seq<EventKind>, items: seq<EventKind>,
      last: EventKind, rest: seq<EventKind>)
    requires ks == node + after && after == items + [last] + rest
    ensures ks == node + items + [last] + rest
  {
  }

  lemma SplitDocument(ks: seq<EventKind>) returns (t: Tree, after: seq<EventKind>)
    requires Run(Doc([DocFrame(false)]), ks) == End
    ensures Paired(t) && ks == Flatten(t) + [DocumentEnd] + after
    ensures Run(Stream, after) == End
  {
    hide Run, Flatten;
    var rest;
    t, rest := SplitNode([DocFrame(false)], ks);
    assert FillTop([DocFrame(false)]) == [DocFrame(true)];
    GoesOn(Doc([DocFrame(true)]), rest);
    after := rest[1..];
    assert rest == [DocumentEnd] + after;
  }

  lemma DocumentThen(ks: seq<EventKind>, node: seq<EventKind>, after: seq<EventKind>, rest: seq<EventKind>)
    requires ks != [] && ks[0] == DocumentStart && ks[1..] == node + [DocumentEnd] + after
    requires after == rest + [StreamEnd]
    ensures ks == [DocumentStart] + node + [DocumentEnd] + rest + [StreamEnd]
  {
    assert ks == [ks[0]] + ks[1..];
  }

  lemma {:induction false} SplitDocuments(ks: seq<EventKind>) returns (docs: Forest)
    requires Run(Stream, ks) == End
    ensures AllPaired(docs) && ks == DocumentsOf(docs) + [StreamEnd]
    decreases |ks|
  {
    hide Flatten;
    RunReject(if ks == [] then [] else ks[1..]);
    if ks[0] == StreamEnd {
      AfterEnd(ks[1..]);
      docs := Nil;
    } else {
      var t, after := SplitDocument(ks[1..]);
      var tail := SplitDocuments(after);
      docs := Cons(t, tail);
      DocumentThen(ks, Flatten(t), after, DocumentsOf(tail));
    }
  }

  lemma {:induction false} AfterEnd(ks: seq<EventKind>)
    requires Run(End, ks) == End
    ensures ks == []
  {
    if ks != [] {
      RunReject(ks[1..]);
    }
  }

  /** The acceptor reaches `End` on exactly the flattened streams of node trees. */
  lemma StreamsAreFlattenedTrees(ks: seq<EventKind>)
    ensures Run(Start, ks) == End <==> exists docs: Forest :: AllPaired(docs) && ks == StreamOf(docs)
  {
    if Run(Start, ks) == End {
      RunReject(if ks == [] then [] else ks[1..]);
      var docs := SplitDocuments(ks[1..]);
      assert ks == [StreamStart] + ks[1..];
      assert ks == StreamOf(docs);
    }
    forall docs: Forest | AllPaired(docs) && ks == StreamOf(docs)
      ensures Run(Start, ks) == End
    {
      RunDocuments(docs);
      assert ks[1..] == DocumentsOf(docs) + [StreamEnd];
      RunConcat(Stream, DocumentsOf(docs), [StreamEnd]);
      assert Run(Stream, [StreamEnd]) == End;
    }
  }
}
