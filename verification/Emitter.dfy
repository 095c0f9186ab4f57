/** The YAML emitter (emitterc.go): a queue of events with a bounded lookahead and a pushdown
  * machine over them.
  *
  * What is written is a log of writes, which is shown to be the one of the recursive printer of
  * YamlLayout. How a write moves the pen, and what the analysis of a scalar finds in its text,
  * are parameters; the double-quoted style is the subject of DoubleQuoted. */
module YamlEmitter {
  import opened Options
  import opened YamlEvents
  import opened YamlLayout
  import YamlReadback
  import YamlStyles

  // ----- Valid events ------------------------------------------------------------------

  predicate IsAlpha(c: char) {
    '0' <= c <= '9' || 'A' <= c <= 'Z' || 'a' <= c <= 'z' || c == '_' || c == '-'
  }

  predicate ValidAnchor(name: string) {
    name != "" && forall i :: 0 <= i < |name| ==> IsAlpha(name[i])
  }

  predicate ValidTagDirective(d: TagDirective) {
    && d.handle != "" && d.handle[0] == '!' && d.handle[|d.handle| - 1] == '!' && d.prefix != ""
    && forall i :: 1 <= i < |d.handle| - 1 ==> IsAlpha(d.handle[i])
  }

  predicate Distinct(ds: seq<TagDirective>) {
    forall i, j :: 0 <= i < j < |ds| ==> ds[i].handle != ds[j].handle
  }

  /** The data of an event that the emitter accepts. */
  predicate ValidData(e: Event) {
    match e.kind
    case DocumentStart =>
      && (e.version == None || e.version == Some((1, 1)))
      && (forall i :: 0 <= i < |e.tagDirectives| ==> ValidTagDirective(e.tagDirectives[i]))
      && Distinct(e.tagDirectives)
    case Alias => ValidAnchor(AnchorText(e))
    case Scalar =>
      (AnchorText(e) == "" || ValidAnchor(AnchorText(e))) && (e.implicit || e.quotedImplicit || e.tag != "")
    case SequenceStart | MappingStart => AnchorText(e) == "" || ValidAnchor(AnchorText(e))
    case _ => true
  }

  predicate AllValid(es: seq<Event>) {
    forall i :: 0 <= i < |es| ==> ValidData(es[i])
  }

  // ----- Lookahead ---------------------------------------------------------------------

  function Accumulate(k: EventKind): nat {
    match k
    case DocumentStart => 1
    case SequenceStart => 2
    case MappingStart => 3
    case _ => 0
  }

  function Delta(k: EventKind): int {
    match k
    case StreamStart | DocumentStart | SequenceStart | MappingStart => 1
    case StreamEnd | DocumentEnd | SequenceEnd | MappingEnd => -1
    case _ => 0
  }

  function Level(ks: seq<EventKind>): int {
    if ks == [] then 0 else Level(ks[..|ks| - 1]) + Delta(ks[|ks| - 1])
  }

  /** Everything that `ks` opens is closed at some point. */
  ghost predicate Closes(ks: seq<EventKind>) {
    exists i :: 0 < i <= |ks| && Level(ks[..i]) == 0
  }

  /** Is the queue too short to emit its first event? */
  ghost predicate Waits(ks: seq<EventKind>) {
    ks == [] || (Accumulate(ks[0]) > 0 && |ks| <= Accumulate(ks[0]) && !Closes(ks))
  }

  function Depth(g: Grammar): nat {
    match g
    case Stream => 1
    case Doc(frames) => 1 + |frames|
    case _ => 0
  }

  lemma {:induction false} LevelIsDepth(g: Grammar, ks: seq<EventKind>)
    requires Run(g, ks) != Reject
    ensures Level(ks) == Depth(Run(g, ks)) - Depth(g)
    decreases |ks|
  {
    if ks != [] {
      var n := |ks| - 1;
      LegalPrefix(g, ks, n);
      LevelIsDepth(g, ks[..n]);
      assert ks[..|ks|] == ks;
    }
  }

  /** Levels change by one, so a level that starts above zero and ends at or below it is zero
    * somewhere. */
  lemma {:induction false} Crosses(ks: seq<EventKind>, i: nat)
    requires 0 < i <= |ks| && Level(ks[..i]) > 0 && Level(ks) <= 0
    ensures Closes(ks)
    decreases |ks| - i
  {
    assert ks[..|ks|] == ks;
    if i < |ks| {
      assert ks[..i + 1][..i] == ks[..i];
      if Level(ks[..i + 1]) > 0 {
        Crosses(ks, i + 1);
      }
    }
  }

  /** When the stream is complete, no event waits. */
  lemma NothingWaits(g: Grammar, ks: seq<EventKind>)
    requires Run(g, ks) == End && ks != []
    ensures !Waits(ks)
  {
    if Accumulate(ks[0]) > 0 {
      LevelIsDepth(g, ks);
      assert ks[..1][..0] == [];
      assert Level(ks[..1]) == Delta(ks[0]) == 1;
      Crosses(ks, 1);
    }
  }

  /** A collection in block style has an item. */
  predicate NoEmptyBlock(state: State, queue: seq<Event>) {
    && (state == BlockSequenceFirstItemState ==> queue != [] && queue[0].kind != SequenceEnd)
    && (state == BlockMappingFirstKeyState ==> queue != [] && queue[0].kind != MappingEnd)
  }

  /** An event that opens a collection is emitted only when the event after it is known. */
  lemma NextIsKnown(ks: seq<EventKind>)
    requires !Waits(ks) && (ks[0] == SequenceStart || ks[0] == MappingStart)
    ensures |ks| >= 2
  {
    LevelOfOne(ks[0]);
    assert ks[..1] == [ks[0]];
  }

  lemma LevelOfOne(k: EventKind)
    ensures Level([k]) == Delta(k)
  {
    assert [k][..0] == [];
  }

  // ----- States ------------------------------------------------------------------------

  datatype State =
    | StreamStartState | FirstDocumentStartState | DocumentStartState
    | DocumentContentState | DocumentEndState
    | FlowSequenceFirstItemState | FlowSequenceItemState
    | FlowMappingFirstKeyState | FlowMappingKeyState | FlowMappingSimpleValueState | FlowMappingValueState
    | BlockSequenceFirstItemState | BlockSequenceItemState
    | BlockMappingFirstKeyState | BlockMappingKeyState | BlockMappingSimpleValueState | BlockMappingValueState
    | EndState

  predicate InDocument(s: State) {
    && s != StreamStartState && s != FirstDocumentStartState && s != DocumentStartState && s != EndState
  }

  predicate IsFirst(s: State) {
    || s == FlowSequenceFirstItemState || s == FlowMappingFirstKeyState
    || s == BlockSequenceFirstItemState || s == BlockMappingFirstKeyState
  }

  /** The production that a state is in the middle of. */
  function FrameOf(s: State): Frame {
    match s
    case DocumentContentState => DocFrame(false)
    case FlowSequenceFirstItemState | FlowSequenceItemState => SeqFrame
    case BlockSequenceFirstItemState | BlockSequenceItemState => SeqFrame
    case FlowMappingFirstKeyState | FlowMappingKeyState => MapFrame(true)
    case BlockMappingFirstKeyState | BlockMappingKeyState => MapFrame(true)
    case FlowMappingSimpleValueState | FlowMappingValueState => MapFrame(false)
    case BlockMappingSimpleValueState | BlockMappingValueState => MapFrame(false)
    case _ => DocFrame(true)
  }

  function FramesOf(ss: seq<State>): (fs: seq<Frame>)
    ensures |fs| == |ss|
  {
    seq(|ss|, i requires 0 <= i < |ss| => FrameOf(ss[i]))
  }

  /** A state that goes on after a node: `states` holds only these. */
  predicate Resumes(s: State, bottom: bool) {
    InDocument(s) && !IsFirst(s) && s != DocumentContentState && (bottom <==> s == DocumentEndState)
  }

  /** The state and the stack of states are where the grammar is. */
  predicate Control(state: State, states: seq<State>, g: Grammar) {
    match state
    case StreamStartState => g == Start && states == []
    case FirstDocumentStartState | DocumentStartState => g == Stream && states == []
    case EndState => g == End && states == []
    case _ =>
      && g == Doc(FramesOf(states + [state]))
      && (forall i :: 0 <= i < |states| ==> Resumes(states[i], i == 0))
      && (states == [] <==> state == DocumentContentState || state == DocumentEndState)
  }

  predicate IsFlow(s: State) {
    || s == FlowSequenceItemState || s == FlowMappingKeyState
    || s == FlowMappingSimpleValueState || s == FlowMappingValueState
  }

  /** Has the state increased the indentation? */
  predicate Indents(s: State) {
    InDocument(s) && !IsFirst(s) && s != DocumentContentState && s != DocumentEndState
  }

  function Count(ss: seq<State>): nat {
    if ss == [] then 0 else Count(ss[..|ss| - 1]) + if Indents(ss[|ss| - 1]) then 1 else 0
  }

  function CountFlow(ss: seq<State>): nat {
    if ss == [] then 0 else CountFlow(ss[..|ss| - 1]) + if IsFlow(ss[|ss| - 1]) then 1 else 0
  }

  lemma CountOne(ss: seq<State>, s: State)
    ensures Count(ss + [s]) == Count(ss) + (if Indents(s) then 1 else 0)
    ensures CountFlow(ss + [s]) == CountFlow(ss) + (if IsFlow(s) then 1 else 0)
    ensures FramesOf(ss + [s]) == FramesOf(ss) + [FrameOf(s)]
  {
    assert (ss + [s])[..|ss|] == ss;
  }

  /** One level of indentation and of flow for each open collection, above a bottom of -1. */
  predicate Levels(ss: seq<State>, indents: seq<int>, indent: int, flowLevel: nat) {
    && |indents| == Count(ss) && flowLevel == CountFlow(ss) && (indents + [indent])[0] == -1
  }

  /** A node was emitted whose continuation is on top of `pushed`. */
  predicate Placed(k: EventKind, pushed: seq<State>, states: seq<State>, state: State) {
    match k
    case SequenceStart =>
      states == pushed && (state == FlowSequenceFirstItemState || state == BlockSequenceFirstItemState)
    case MappingStart =>
      states == pushed && (state == FlowMappingFirstKeyState || state == BlockMappingFirstKeyState)
    case _ => states + [state] == pushed
  }

  lemma NodePlaced(g: Grammar, k: EventKind, state: State, states: seq<State>, cont: State, state': State,
      states': seq<State>)
    requires Control(state, states, g) && InDocument(state) && IsNode(k) && Step(g, k) != Reject
    requires Resumes(cont, states == []) && FrameOf(cont) == Fill(FrameOf(state))
    requires Placed(k, states + [cont], states', state')
    ensures Control(state', states', Step(g, k))
    ensures Count(states' + [state']) == Count(states) + (if Indents(cont) then 1 else 0)
    ensures CountFlow(states' + [state']) == CountFlow(states) + (if IsFlow(cont) then 1 else 0)
  {
    hide Count, CountFlow, FramesOf, Control, Resumes;
    CountOne(states, cont);
    CountOne(states + [cont], state');
    StepNode(g, k, state, states, cont);
    NodeControl(Step(g, k), k, states, cont, state', states');
  }

  lemma StepNode(g: Grammar, k: EventKind, state: State, states: seq<State>, cont: State)
    requires Control(state, states, g) && InDocument(state) && IsNode(k) && Step(g, k) != Reject
    requires FrameOf(cont) == Fill(FrameOf(state))
    ensures forall i :: 0 <= i < |states| ==> Resumes(states[i], i == 0)
    ensures Step(g, k) ==
      Doc(FramesOf(states + [cont])
      + match k case SequenceStart => [SeqFrame] case MappingStart => [MapFrame(true)] case _ => [])
  {
    hide FramesOf, Step, Fill;
    CountOne(states, state);
    CountOne(states, cont);
    StepFrames(FramesOf(states), FrameOf(state), k);
  }

  lemma StepFrames(frames: seq<Frame>, f: Frame, k: EventKind)
    requires IsNode(k) && Step(Doc(frames + [f]), k) != Reject
    ensures Step(Doc(frames + [f]), k)
         == Doc(frames + [Fill(f)]
             + match k case SequenceStart => [SeqFrame] case MappingStart => [MapFrame(true)] case _ => [])
  {
    var all := frames + [f];
    assert all[..|all| - 1] == frames && all[|all| - 1] == f;
    assert frames + [Fill(f)] + [] == frames + [Fill(f)];
  }

  lemma NodeControl(g: Grammar, k: EventKind, states: seq<State>, cont: State, state': State, states': seq<State>)
    requires forall i :: 0 <= i < |states| ==> Resumes(states[i], i == 0)
    requires Resumes(cont, states == []) && IsNode(k) && Placed(k, states + [cont], states', state')
    requires g == Doc(FramesOf(states + [cont])
      + match k case SequenceStart => [SeqFrame] case MappingStart => [MapFrame(true)] case _ => [])
    ensures Control(state', states', g)
  {
    hide FramesOf;
    CountOne(states + [cont], state');
    var pushed := states + [cont];
    assert forall i :: 0 <= i < |pushed| ==> Resumes(pushed[i], i == 0);
    assert FramesOf(pushed) + [] == FramesOf(pushed);
    if k == Alias || k == Scalar {
      assert state' == pushed[|states'|];
      assert forall i :: 0 <= i < |states'| ==> states'[i] == pushed[i];
    }
  }

  /** The collection on top is closed. */
  lemma CollectionClosed(g: Grammar, k: EventKind, state: State, states: seq<State>)
    requires Control(state, states, g) && Step(g, k) != Reject && (k == SequenceEnd || k == MappingEnd)
    ensures states != []
    ensures var n := |states| - 1;
      && Control(states[n], states[..n], Step(g, k)) && states[..n] + [states[n]] == states
  {
    var frames := FramesOf(states + [state]);
    var n := |states| - 1;
    assert states != [];
    assert states[..n] + [states[n]] == states;
    assert frames[..|frames| - 1] == FramesOf(states);
  }

  // ----- What is left to print ----------------------------------------------------------

  /** The states of the emitter, with `mapping` for the context of a block sequence that starts. */
  datatype Where = Where(state: State, states: seq<State>, indents: seq<int>, indent: int, level: nat, mapping: bool)

  function Last<T>(xs: seq<T>): T
    requires xs != []
  {
    xs[|xs| - 1]
  }

  function Init<T>(xs: seq<T>): seq<T>
    requires xs != []
  {
    xs[..|xs| - 1]
  }

  /** Behind the collection that `w` is in. */
  function Below(w: Where): Where
    requires w.states != []
  {
    if IsFirst(w.state) || w.indents == [] then
      Where(Last(w.states), Init(w.states), w.indents, w.indent, w.level, false)
    else
      Where(Last(w.states), Init(w.states), Init(w.indents), Last(w.indents),
        if IsFlow(w.state) && w.level > 0 then w.level - 1 else w.level, false)
  }

  function Outer(w: Where): int {
    if w.indents == [] then w.indent else Last(w.indents)
  }

  /** The rest of the collection that `w` is in. */
  function Current(s: Settings, es: seq<Event>, pos: nat, out: seq<Write>, w: Where): Printed {
    match w.state
    case FlowSequenceFirstItemState => Collection(s, es, pos, out, true, true, w.indent, w.level, w.mapping)
    case FlowMappingFirstKeyState => Collection(s, es, pos, out, false, true, w.indent, w.level, w.mapping)
    case BlockSequenceFirstItemState => Collection(s, es, pos, out, true, false, w.indent, w.level, w.mapping)
    case BlockMappingFirstKeyState => Collection(s, es, pos, out, false, false, w.indent, w.level, w.mapping)
    case FlowSequenceItemState => FlowItems(s, es, pos, out, Outer(w), w.indent, w.level, false)
    case FlowMappingKeyState => FlowPairs(s, es, pos, out, Outer(w), w.indent, w.level, false)
    case FlowMappingSimpleValueState => FlowValue(s, es, pos, out, Outer(w), w.indent, w.level, true)
    case FlowMappingValueState => FlowValue(s, es, pos, out, Outer(w), w.indent, w.level, false)
    case BlockSequenceItemState => BlockItems(s, es, pos, out, w.indent, w.level)
    case BlockMappingKeyState => BlockPairs(s, es, pos, out, w.indent, w.level)
    case BlockMappingSimpleValueState => BlockValue(s, es, pos, out, w.indent, w.level, true)
    case BlockMappingValueState => BlockValue(s, es, pos, out, w.indent, w.level, false)
    case _ => Printed(out, pos)
  }

  /** All that the recursive printer has left to do when the emitter is at `w`. */
  function Rest(s: Settings, es: seq<Event>, pos: nat, out: seq<Write>, w: Where): Printed
    decreases |w.states|, 1
  {
    match w.state
    case StreamStartState =>
      if pos < |es| && es[pos].kind == StreamStart then Documents(Normal(s), es, pos + 1, out, true)
          else Printed(out, pos)
    case FirstDocumentStartState => Documents(s, es, pos, out, true)
    case DocumentStartState => Documents(s, es, pos, out, false)
    case DocumentContentState => Body(s, es, pos, out)
    case DocumentEndState => Foot(s, es, pos, out)
    case EndState => Printed(out, pos)
    case _ => Behind(s, es, Current(s, es, pos, out, w), w)
  }

  /** The same when the collection that `w` is in was printed. */
  function Behind(s: Settings, es: seq<Event>, r: Printed, w: Where): Printed
    decreases |w.states|, 0
  {
    if w.states == [] then r else Rest(s, es, r.pos, r.out, Below(w))
  }

  /** The same when the next event is that of a node, behind which `w` goes on. */
  function After(s: Settings, es: seq<Event>, pos: nat, out: seq<Write>, w: Where, place: Place): Printed {
    var r := Node(s, es, pos, out, w.indent, w.level, place);
    Rest(s, es, r.pos, r.out, w)
  }

  predicate InCollection(s: State) {
    IsFirst(s) || Indents(s)
  }

  lemma RestIs(s: Settings, es: seq<Event>, pos: nat, out: seq<Write>, w: Where)
    requires InCollection(w.state)
    ensures Rest(s, es, pos, out, w) == Behind(s, es, Current(s, es, pos, out, w), w)
  {
    hide Current, Behind;
  }

  /** What is behind a collection depends only on where it was opened. */
  lemma BehindSame(s: Settings, es: seq<Event>, r: Printed, v: Where, w: Where)
    requires v.states != [] && w.states != [] && Below(v) == Below(w)
    ensures Behind(s, es, r, v) == Behind(s, es, r, w)
  {
    hide Rest, Below;
  }

  lemma LeafPrinted(s: Settings, es: seq<Event>, pos: nat, out: seq<Write>, w: Where, place: Place)
    requires pos < |es| && (es[pos].kind == Alias || es[pos].kind == Scalar)
    ensures After(s, es, pos, out, w, place)
         == Rest(s, es, pos + 1,
              out + if es[pos].kind == Alias then Anchoring(es[pos])
                  else ScalarWrites(s, es[pos], w.indent, w.level, place), w)
  {
    hide Rest, ScalarWrites, Anchoring;
  }

  /** The state at the start of a collection. */
  function FirstState(sequence: bool, flow: bool): State {
    if sequence then (if flow then FlowSequenceFirstItemState else BlockSequenceFirstItemState)
    else if flow then FlowMappingFirstKeyState else BlockMappingFirstKeyState
  }

  lemma CollectionStarted(s: Settings, es: seq<Event>, pos: nat, out: seq<Write>, cont: State, states: seq<State>,
      indents: seq<int>, indent: int, level: nat, place: Place)
    requires pos < |es| && (es[pos].kind == SequenceStart || es[pos].kind == MappingStart)
    ensures var e := es[pos];
      var sequence, flow := e.kind == SequenceStart, InFlow(s, es, pos, level);
      After(s, es, pos, out, Where(cont, states, indents, indent, level, false), place)
        == Rest(s, es, pos + 1, out + Anchoring(e) + Tagging(TagOf(s, e)),
             Where(FirstState(sequence, flow), states + [cont], indents, indent, level, place.mapping && sequence &&
                 !flow))
  {
    hide Anchoring, TagOf, Tagging, InFlow, FlowItems, FlowPairs, BlockItems, BlockPairs;
    var e := es[pos];
    assert IsNode(e.kind);
    var sequence, flow := e.kind == SequenceStart, InFlow(s, es, pos, level);
    var w := Where(FirstState(sequence, flow), states + [cont], indents, indent, level, place.mapping && sequence &&
        !flow);
    assert Below(w) == Where(cont, states, indents, indent, level, false);
    var out' := out + Anchoring(e) + Tagging(TagOf(s, e));
    assert Node(s, es, pos, out, indent, level, place) == Current(s, es, pos + 1, out', w);
    assert Rest(s, es, pos + 1, out', w) == Behind(s, es, Current(s, es, pos + 1, out', w), w);
  }

  /** Inside a flow sequence or mapping: does its first child come next? */
  function InFlowCollection(s: Settings, es: seq<Event>, pos: nat, out: seq<Write>, w: Where, first: bool): Printed {
    Behind(s, es,
      if w.state == FlowSequenceItemState then FlowItems(s, es, pos, out, Outer(w), w.indent, w.level, first)
      else FlowPairs(s, es, pos, out, Outer(w), w.indent, w.level, first), w)
  }

  lemma FlowEntered(s: Settings, es: seq<Event>, pos: nat, out: seq<Write>, sequence: bool, states: seq<State>,
      indents: seq<int>, indent: int, level: nat)
    requires states != []
    ensures Rest(s, es, pos, out, Where(FirstState(sequence, true), states, indents, indent, level, false))
         == InFlowCollection(s, es, pos, out + [Opening(if sequence then "[" else "{")],
              Where(if sequence then FlowSequenceItemState else FlowMappingKeyState, states,
                indents + [indent], Inner(s, indent, true, false), level + 1, false), true)
  {
    hide FlowItems, FlowPairs, Inner;
    var first := Where(FirstState(sequence, true), states, indents, indent, level, false);
    var w := Where(if sequence then FlowSequenceItemState else FlowMappingKeyState, states,
      indents + [indent], Inner(s, indent, true, false), level + 1, false);
    assert Below(first) == Below(w) && Outer(w) == indent;
    assert Rest(s, es, pos, out, first) == Behind(s, es, Current(s, es, pos, out, first), first);
  }

  lemma FlowGoesOn(s: Settings, es: seq<Event>, pos: nat, out: seq<Write>, w: Where)
    requires w.state == FlowSequenceItemState || w.state == FlowMappingKeyState
    ensures Rest(s, es, pos, out, w) == InFlowCollection(s, es, pos, out, w, false)
  {
    hide FlowItems, FlowPairs, Behind;
  }

  lemma FlowItemNext(s: Settings, es: seq<Event>, pos: nat, out: seq<Write>, w: Where, first: bool)
    requires w.state == FlowSequenceItemState && pos < |es| && IsNode(es[pos].kind)
    ensures InFlowCollection(s, es, pos, out, w, first)
         == After(s, es, pos, Separated(s, out, w.indent, first), w, ITEM)
  {
    hide Node, Separated, Behind;
  }

  lemma FlowClosed(s: Settings, es: seq<Event>, pos: nat, out: seq<Write>, w: Where, first: bool)
    requires w.state == FlowSequenceItemState || w.state == FlowMappingKeyState
    requires pos < |es| && es[pos].kind == (if w.state == FlowSequenceItemState then SequenceEnd else MappingEnd)
    requires w.states != []
    ensures InFlowCollection(s, es, pos, out, w, first)
         == Rest(s, es, pos + 1,
             Closed(s, out, if w.state == FlowSequenceItemState then "]" else "}", Outer(w), first), Below(w))
  {
    hide Node, Closed, Rest;
  }

  lemma FlowKeyNext(s: Settings, es: seq<Event>, pos: nat, out: seq<Write>, w: Where, first: bool)
    requires w.state == FlowMappingKeyState && pos < |es| && IsNode(es[pos].kind)
    ensures var before := Separated(s, out, w.indent, first);
      InFlowCollection(s, es, pos, out, w, first)
        == if !s.canonical && SimpleKey(s, es, pos) then
             After(s, es, pos, before, w.(state := FlowMappingSimpleValueState), KEY(true))
           else
             After(s, es, pos, before + [Spaced("?")], w.(state := FlowMappingValueState), KEY(false))
  {
    hide Node, Separated, SimpleKey, FlowValue;
    PairsSame(s, es, w, FlowMappingSimpleValueState);
    PairsSame(s, es, w, FlowMappingValueState);
  }

  /** What is behind a pair does not depend on where in it one is. */
  lemma PairsSame(s: Settings, es: seq<Event>, w: Where, t: State)
    requires IsFirst(w.state) == IsFirst(t) && IsFlow(w.state) == IsFlow(t)
    ensures forall r :: Behind(s, es, r, w.(state := t)) == Behind(s, es, r, w)
  {
    hide Rest;
    assert w.states != [] ==> Below(w.(state := t)) == Below(w);
  }

  lemma FlowValueNext(s: Settings, es: seq<Event>, pos: nat, out: seq<Write>, w: Where, simple: bool)
    requires w.state == (if simple then FlowMappingSimpleValueState else FlowMappingValueState)
    requires pos < |es| && IsNode(es[pos].kind)
    ensures Rest(s, es, pos, out, w)
         == After(s, es, pos, if simple then out + [Tight(":")] else Wrapped(s, out, w.indent) + [Spaced(":")],
              w.(state := FlowMappingKeyState), VALUE)
  {
    hide Node, Wrapped, FlowPairs;
    PairsSame(s, es, w, FlowMappingKeyState);
  }

  lemma BlockEntered(s: Settings, es: seq<Event>, pos: nat, out: seq<Write>, sequence: bool, states: seq<State>,
      indents: seq<int>, indent: int, level: nat, mapping: bool)
    requires states != []
    ensures Rest(s, es, pos, out, Where(FirstState(sequence, false), states, indents, indent, level, mapping))
         == Rest(s, es, pos, out,
              Where(if sequence then BlockSequenceItemState else BlockMappingKeyState, states, indents + [indent],
                Inner(s, indent, false, sequence && mapping && !s.pen(out).indention), level, false))
  {
    hide BlockItems, BlockPairs, Inner, Rest, Behind;
    var first := Where(FirstState(sequence, false), states, indents, indent, level, mapping);
    var w := Where(if sequence then BlockSequenceItemState else BlockMappingKeyState, states, indents + [indent],
                Inner(s, indent, false, sequence && mapping && !s.pen(out).indention), level, false);
    RestIs(s, es, pos, out, first);
    RestIs(s, es, pos, out, w);
    BehindSame(s, es, Current(s, es, pos, out, w), first, w);
  }

  lemma BlockItemNext(s: Settings, es: seq<Event>, pos: nat, out: seq<Write>, w: Where)
    requires w.state == BlockSequenceItemState && pos < |es| && IsNode(es[pos].kind)
    ensures Rest(s, es, pos, out, w) == After(s, es, pos, out + [IndentTo(w.indent), Compact("-")], w, ITEM)
  {
    hide Node, Behind;
  }

  lemma BlockClosed(s: Settings, es: seq<Event>, pos: nat, out: seq<Write>, w: Where)
    requires w.state == BlockSequenceItemState || w.state == BlockMappingKeyState
    requires pos < |es| && es[pos].kind == (if w.state == BlockSequenceItemState then SequenceEnd else MappingEnd)
    requires w.states != []
    ensures Rest(s, es, pos, out, w) == Rest(s, es, pos + 1, out, Below(w))
  {
    hide Node;
    assert Rest(s, es, pos, out, w) == Behind(s, es, Current(s, es, pos, out, w), w);
  }

  lemma BlockKeyNext(s: Settings, es: seq<Event>, pos: nat, out: seq<Write>, w: Where)
    requires w.state == BlockMappingKeyState && pos < |es| && IsNode(es[pos].kind)
    ensures var before := out + [IndentTo(w.indent)];
      Rest(s, es, pos, out, w)
        == if SimpleKey(s, es, pos) then
             After(s, es, pos, before, w.(state := BlockMappingSimpleValueState), KEY(true))
           else
             After(s, es, pos, before + [Compact("?")], w.(state := BlockMappingValueState), KEY(false))
  {
    hide Node, SimpleKey, BlockValue;
    PairsSame(s, es, w, BlockMappingSimpleValueState);
    PairsSame(s, es, w, BlockMappingValueState);
  }

  lemma BlockValueNext(s: Settings, es: seq<Event>, pos: nat, out: seq<Write>, w: Where, simple: bool)
    requires w.state == (if simple then BlockMappingSimpleValueState else BlockMappingValueState)
    requires pos < |es| && IsNode(es[pos].kind)
    ensures Rest(s, es, pos, out, w)
         == After(s, es, pos, out + if simple then [Tight(":")] else [IndentTo(w.indent), Compact(":")],
              w.(state := BlockMappingKeyState), VALUE)
  {
    hide Node, BlockPairs;
    PairsSame(s, es, w, BlockMappingKeyState);
  }

  lemma RootNext(s: Settings, es: seq<Event>, pos: nat, out: seq<Write>)
    requires pos < |es| && IsNode(es[pos].kind)
    ensures Rest(s, es, pos, out, Where(DocumentContentState, [], [], -1, 0, false))
         == After(s, es, pos, out, Where(DocumentEndState, [], [], -1, 0, false), ROOT)
  {
    hide Node, Foot;
  }

  lemma DocumentStarted(s: Settings, es: seq<Event>, pos: nat, out: seq<Write>, first: bool)
    requires pos < |es| && es[pos].kind == DocumentStart
    ensures var s' := s.(directives := AddMissing(es[pos].tagDirectives, DEFAULT_DIRECTIVES));
      Rest(s, es, pos, out, Where(if first then FirstDocumentStartState else DocumentStartState, [], [], -1, 0, false))
        == Rest(s', es, pos + 1, Head(s', es[pos], out, first), Where(DocumentContentState, [], [], -1, 0, false))
  {
    hide AddMissing, Body, Directives;
  }

  lemma StreamEnded(s: Settings, es: seq<Event>, pos: nat, out: seq<Write>, first: bool)
    requires pos < |es| && es[pos].kind == StreamEnd
    ensures Rest(s, es, pos, out,
      Where(if first then FirstDocumentStartState else DocumentStartState, [], [], -1, 0, false))
      == Rest(s, es, pos + 1, if s.pen(out).openEnded then out + [Spaced("..."), Indent(0)]
          else out, Where(EndState, [], [], -1, 0, false))
  {
  }

  lemma DocumentEnded(s: Settings, es: seq<Event>, pos: nat, out: seq<Write>)
    requires pos < |es| && es[pos].kind == DocumentEnd
    ensures Rest(s, es, pos, out, Where(DocumentEndState, [], [], -1, 0, false))
      == Rest(s.(directives := []), es, pos + 1, out + [Indent(0)] + if es[pos].implicit then []
          else [Spaced("..."), Indent(0)],
           Where(DocumentStartState, [], [], -1, 0, false))
  {
    hide Documents;
  }

  // ----- The emitter -------------------------------------------------------------------

  /** Every directive has a handle, so a tag that matches one has a handle. */
  predicate Handles(ds: seq<TagDirective>) {
    forall i :: 0 <= i < |ds| ==> ds[i].handle != ""
  }

  lemma {:induction false} TagRemains(ds: seq<TagDirective>, tag: string)
    requires Handles(ds) && tag != ""
    ensures Split(ds, tag) != NO_TAG
  {
    if ds != [] && !(ds[0].prefix <= tag) {
      TagRemains(ds[1..], tag);
    }
  }

  class Emitter {
    const canonical: bool
    const analysis: string -> ScalarData
    const pen: seq<Write> -> Pen
    /** All the events that there will be, and what the recursive printer makes of them. */
    ghost const plan: seq<Event>
    ghost const goal: Printed
    var bestIndent: int
    var bestWidth: int
    var events: seq<Event>
    var head: nat
    var state: State
    var states: seq<State>
    var indents: seq<int>
    var indent: int
    var flowLevel: nat
    var tagDirectives: seq<TagDirective>
    var rootContext: bool
    var mappingContext: bool
    var simpleKeyContext: bool
    var anchor: string
    var alias: bool
    var tagHandle: string
    var tagSuffix: string
    var scalar: ScalarData
    var value: string
    var style: Style
    var error: Option<string>
    var out: seq<Write>

    ghost function Open(): Grammar
      reads `events, `head
      requires head <= |events|
    {
      Run(Start, Kinds(events[..head]))
    }

    function Now(): Settings
      reads `bestIndent, `bestWidth, `tagDirectives
    {
      Settings(canonical, analysis, pen, bestIndent, bestWidth, tagDirectives)
    }

    function Here(): Where
      reads `state, `states, `indents, `indent, `flowLevel, `mappingContext
    {
      Where(state, states, indents, indent, flowLevel, mappingContext && state == BlockSequenceFirstItemState)
    }

    /** Between two events: what was written, and what the recursive printer writes from here,
      * is what it writes in all. */
    ghost predicate Valid()
      reads this
    {
      && head <= |events| && error == None && AllValid(events) && events <= plan
      && Control(state, states, Open())
      && Levels(states + [state], indents, indent, flowLevel)
      && NoEmptyBlock(state, events[head..])
      && Handles(tagDirectives) && (!InDocument(state) ==> tagDirectives == [])
      && goal == Rest(Now(), plan, head, out, Here())
    }

    constructor (canonical: bool, bestIndent: int, bestWidth: int, analysis: string -> ScalarData,
        pen: seq<Write> -> Pen, ghost plan: seq<Event>)
      ensures Valid() && events == [] && head == 0 && out == [] && this.plan == plan
      ensures goal == Layout(Settings(canonical, analysis, pen, bestIndent, bestWidth, []), plan)
    {
      this.canonical, this.analysis, this.pen := canonical, analysis, pen;
      this.plan, goal := plan, Layout(Settings(canonical, analysis, pen, bestIndent, bestWidth, []), plan);
      this.bestIndent, this.bestWidth := bestIndent, bestWidth;
      events, head, out, error := [], 0, [], None;
      state, states, indents, indent, flowLevel := StreamStartState, [], [], -1, 0;
      tagDirectives, rootContext, mappingContext, simpleKeyContext := [], false, false, false;
      anchor, alias, tagHandle, tagSuffix, value, style := "", false, "", "", "", AnyStyle;
      scalar := ScalarData(false, false, false, false, false);
      hide Control, Levels, NoEmptyBlock, Handles, Layout, Rest, Run;
      AtFirst(Settings(canonical, analysis, pen, bestIndent, bestWidth, []), plan);
      new;
      assert events[..head] == [] && states + [state] == [StreamStartState] && events[head..] == [];
    }

    method SetError(problem: string) returns (ok: bool)
      modifies `error
      ensures !ok && error == Some(problem)
    {
      error := Some(problem);
      ok := false;
    }

    method Put(w: Write)
      modifies `out
      ensures out == old(out) + [w]
    {
      out := out + [w];
    }

    method WriteIndicator(text: string, spaced: bool, space: bool, indentation: bool)
      modifies `out
      ensures out == old(out) + [Indicator(text, spaced, space, indentation)]
    {
      Put(Indicator(text, spaced, space, indentation));
    }

    method WriteIndent()
      modifies `out
      ensures out == old(out) + [IndentTo(indent)]
    {
      Put(Indent(if indent < 0 then 0 else indent));
    }

    // ----- Analysis of an event --------------------------------------------------------

    method AnalyzeAnchor(name: string, isAlias: bool) returns (ok: bool)
      requires error == None
      modifies `anchor, `alias, `error
      ensures ok == (error == None) == ValidAnchor(name)
      ensures ok ==> anchor == name && alias == isAlias
    {
      if name == "" {
        ok := SetError("anchor or alias value must not be empty");
        return;
      }
      var i := 0;
      while i < |name|
        invariant i <= |name| && forall k :: 0 <= k < i ==> IsAlpha(name[k])
      {
        if !IsAlpha(name[i]) {
          ok := SetError("anchor or alias value must contain alphanumerical characters only");
          return;
        }
        i := i + 1;
      }
      anchor, alias, ok := name, isAlias, true;
    }

    /** Splits a tag into the handle of a directive and the rest. */
    method AnalyzeTag(tag: string)
      requires tag != "" && Handles(tagDirectives) && tagHandle == ""
      modifies `tagHandle, `tagSuffix
      ensures Tag(tagHandle, tagSuffix) == Split(tagDirectives, tag) != NO_TAG
    {
      TagRemains(tagDirectives, tag);
      var i := 0;
      while i < |tagDirectives|
        invariant i <= |tagDirectives| && Split(tagDirectives[i..], tag) == Split(tagDirectives, tag)
      {
        var d := tagDirectives[i];
        if d.prefix <= tag {
          tagHandle, tagSuffix := d.handle, tag[|d.prefix|..];
          return;
        }
        i := i + 1;
      }
      tagSuffix := tag;
    }

    /** The current node's data are those of `e`. */
    ghost predicate Analyzed(e: Event)
      reads `anchor, `alias, `value, `scalar, `tagHandle, `tagSuffix, `bestIndent, `bestWidth, `tagDirectives
    {
      && anchor == (if IsNode(e.kind) then AnchorText(e) else "") && (anchor != "" ==> alias == (e.kind == Alias))
      && (e.kind == Scalar ==> value == e.value && scalar == analysis(e.value))
      && (IsNode(e.kind) && e.kind != Alias ==>
            Tag(tagHandle, tagSuffix) == TagOf(Now(), e) && (TagCounts(canonical, e) ==> TagOf(Now(), e) != NO_TAG))
    }

    method AnalyzeEvent(e: Event) returns (ok: bool)
      requires error == None && Handles(tagDirectives)
      modifies `anchor, `alias, `tagHandle, `tagSuffix, `scalar, `value, `error
      ensures ok == (error == None)
      ensures ValidData(e) ==> ok
      ensures ok ==> Analyzed(e)
    {
      anchor, tagHandle, tagSuffix, value := "", "", "", "";
      ok := true;
      if e.kind == Alias {
        ok := AnalyzeAnchor(AnchorText(e), true);
      } else if IsNode(e.kind) {
        if AnchorText(e) != "" {
          ok := AnalyzeAnchor(AnchorText(e), false);
          if !ok {
            return;
          }
        }
        if TagCounts(canonical, e) {
          AnalyzeTag(e.tag);
        }
        if e.kind == Scalar {
          value, scalar := e.value, analysis(e.value);
        }
      }
    }

    // ----- Nodes -----------------------------------------------------------------------

    method ProcessAnchor()
      modifies `out
      ensures out == old(out) + if anchor == "" then [] else [Spaced(if alias then "*" else "&"), Anchor(anchor, alias)]
    {
      if anchor != "" {
        WriteIndicator(if alias then "*" else "&", true, false, false);
        Put(Anchor(anchor, alias));
      }
    }

    method ProcessTag()
      modifies `out
      ensures out == old(out) + Tagging(Tag(tagHandle, tagSuffix))
    {
      if tagHandle != "" || tagSuffix != "" {
        Put(TagText(tagHandle, tagSuffix));
      }
    }

    method SelectScalarStyle(e: Event) returns (ok: bool)
      requires error == None && e.kind == Scalar && Analyzed(e)
      modifies `style, `tagHandle, `error
      ensures ok == (error == None) == (TagOf(Now(), e) != NO_TAG || e.implicit || e.quotedImplicit)
      ensures ok ==> style == StyleOf(Now(), e, flowLevel > 0, simpleKeyContext)
      ensures ok ==> Tag(tagHandle, tagSuffix) == ScalarTag(Now(), e, style)
    {
      hide TagOf, TagCounts, StyleOf;
      var noTag := tagHandle == "" && tagSuffix == "";
      if noTag && !e.implicit && !e.quotedImplicit {
        ok := SetError("neither tag nor implicit flags are specified");
        return;
      }
      var chosen := ChooseStyle(e, noTag);
      if noTag && !e.quotedImplicit && chosen != Plain {
        tagHandle := "!";
      }
      style := chosen;
      ok := true;
    }

    method ChooseStyle(e: Event, noTag: bool) returns (chosen: Style)
      requires scalar == analysis(e.value) && value == e.value && noTag == (TagOf(Now(), e) == NO_TAG)
      ensures chosen == StyleOf(Now(), e, flowLevel > 0, simpleKeyContext)
    {
      hide TagOf;
      chosen := if e.style == AnyStyle then Plain else e.style;
      if canonical {
        chosen := DoubleQuoted;
      }
      if simpleKeyContext && scalar.multiline {
        chosen := DoubleQuoted;
      }
      if chosen == Plain {
        if (flowLevel > 0 && !scalar.flowPlainAllowed) || (flowLevel == 0 && !scalar.blockPlainAllowed) {
          chosen := SingleQuoted;
        }
        if value == "" && (flowLevel > 0 || simpleKeyContext) {
          chosen := SingleQuoted;
        }
        if noTag && !e.implicit {
          chosen := SingleQuoted;
        }
      }
      if chosen == SingleQuoted && !scalar.singleQuotedAllowed {
        chosen := DoubleQuoted;
      }
      if (chosen == Literal || chosen == Folded) && (!scalar.blockAllowed || flowLevel > 0 || simpleKeyContext) {
        chosen := DoubleQuoted;
      }
    }

    method IncreaseIndent(flow: bool, indentless: bool)
      modifies `indents, `indent
      ensures indents == old(indents) + [old(indent)]
      ensures indent == Inner(Now(), old(indent), flow, indentless)
    {
      indents := indents + [indent];
      if indent < 0 {
        indent := if flow then bestIndent else 0;
      } else if !indentless {
        indent := indent + bestIndent;
      }
    }

    method DecreaseIndent()
      requires indents != []
      modifies `indents, `indent
      ensures indents + [indent] == old(indents)
      ensures var n := |old(indents)| - 1; indents == old(indents)[..n] && indent == old(indents)[n]
    {
      indent := indents[|indents| - 1];
      indents := indents[..|indents| - 1];
    }

    method PopState()
      requires states != []
      modifies `state, `states
      ensures states + [state] == old(states)
      ensures var n := |old(states)| - 1; states == old(states)[..n] && state == old(states)[n]
    {
      state := states[|states| - 1];
      states := states[..|states| - 1];
    }

    /** The event `e` is the first of the queue; behind the start of a collection there is another. */
    ghost predicate Queued(e: Event)
      reads `head, `events
    {
      && head < |events| && events <= plan && e == events[head]
      && (e.kind == SequenceStart || e.kind == MappingStart ==> head + 1 < |events|)
    }

    method CheckEmptyCollection(start: EventKind, end: EventKind) returns (empty: bool)
      requires head <= |events|
      ensures empty == (head + 1 < |events| && events[head].kind == start && events[head + 1].kind == end)
    {
      if |events| - head < 2 {
        return false;
      }
      return events[head].kind == start && events[head + 1].kind == end;
    }

    /** Can the node be a key without an indicator? Only an empty collection can. */
    method CheckSimpleKey(ghost e: Event) returns (simple: bool)
      requires Queued(e) && Analyzed(e)
      ensures simple == SimpleKey(Now(), plan, head)
    {
      var length := 0;
      match events[head].kind {
        case Alias => length := |anchor|;
        case Scalar =>
          if scalar.multiline {
            return false;
          }
          length := |anchor| + |tagHandle| + |tagSuffix| + |value|;
        case SequenceStart =>
          var empty := CheckEmptyCollection(SequenceStart, SequenceEnd);
          if !empty {
            return false;
          }
          length := |anchor| + |tagHandle| + |tagSuffix|;
        case MappingStart =>
          var empty := CheckEmptyCollection(MappingStart, MappingEnd);
          if !empty {
            return false;
          }
          length := |anchor| + |tagHandle| + |tagSuffix|;
        case _ =>
          return false;
      }
      simple := length <= 128;
    }

    /** What was written, and what the recursive printer writes from here, is what it writes in all. */
    ghost predicate Ahead(pos: nat)
      reads `bestIndent, `bestWidth, `tagDirectives, `out, `state, `states, `indents, `indent, `flowLevel,
        `mappingContext
    {
      goal == Rest(Now(), plan, pos, out, Here())
    }

    /** A node comes next, behind which the state `cont` goes on. */
    ghost predicate Pending(e: Event, cont: State, below: seq<State>)
      reads this
    {
      && Queued(e) && Analyzed(e) && ValidData(e) && states == below + [cont] && !IsFirst(cont)
      && (IsNode(e.kind) ==>
            goal == After(Now(), plan, head, out, Where(cont, below, indents, indent, flowLevel, false),
                Place(rootContext, mappingContext, simpleKeyContext)))
    }

    /** The node, or the start of the collection that it is, was emitted. */
    ghost predicate Emitted(e: Event, cont: State, below: seq<State>)
      reads this
    {
      && head < |events| && Placed(e.kind, below + [cont], states, state) && Ahead(head + 1)
      && (e.kind == Alias || e.kind == Scalar || NoEmptyBlock(state, events[head + 1..]))
    }

    /** Emits a node, behind which the state `cont` goes on. */
    method EmitNode(e: Event, root: bool, mapping: bool, simpleKey: bool, ghost cont: State, ghost below: seq<State>)
        returns (ok: bool)
      requires Queued(e) && error == None && Analyzed(e) && ValidData(e) && states == below + [cont] && !IsFirst(cont)
      requires IsNode(e.kind) ==>
        goal == After(Now(), plan, head, out, Where(cont, below, indents, indent, flowLevel, false),
            Place(root, mapping, simpleKey))
      modifies `rootContext, `mappingContext, `simpleKeyContext, `style, `tagHandle, `error, `state, `states,
        `indents, `indent, `out
      ensures ok == (error == None) == IsNode(e.kind)
      ensures indents == old(indents) && indent == old(indent)
      ensures ok ==> Emitted(e, cont, below)
    {
      hide Analyzed, ValidData, Rest, After, Queued, Emitted;
      rootContext, mappingContext, simpleKeyContext := root, mapping, simpleKey;
      ok := EmitPlaced(e, cont, below);
    }

    method EmitPlaced(e: Event, ghost cont: State, ghost below: seq<State>) returns (ok: bool)
      requires Pending(e, cont, below) && error == None
      modifies `style, `tagHandle, `error, `state, `states, `indents, `indent, `out
      ensures ok == (error == None) == IsNode(e.kind)
      ensures indents == old(indents) && indent == old(indent)
      ensures ok ==> Emitted(e, cont, below)
    {
      hide Pending, Emitted;
      if e.kind == Alias {
        ok := EmitAlias(e, cont, below);
      } else if e.kind == Scalar {
        ok := EmitScalar(e, cont, below);
      } else if e.kind == SequenceStart {
        ok := EmitSequenceStart(e, cont, below);
      } else if e.kind == MappingStart {
        ok := EmitMappingStart(e, cont, below);
      } else {
        ok := SetError("expected SCALAR, SEQUENCE-START, MAPPING-START, or ALIAS");
      }
    }

    method EmitAlias(e: Event, ghost cont: State, ghost below: seq<State>) returns (ok: bool)
      requires Pending(e, cont, below) && e.kind == Alias
      modifies `state, `states, `out
      ensures ok && Emitted(e, cont, below)
    {
      hide Rest, After, Emitted;
      LeafPrinted(Now(), plan, head, out, Where(cont, below, indents, indent, flowLevel, false),
          Place(rootContext, mappingContext, simpleKeyContext));
      ProcessAnchor();
      GoOn(e, cont, below);
      ok := true;
    }

    /** Behind a node that is a single event. */
    method GoOn(e: Event, ghost cont: State, ghost below: seq<State>)
      requires head < |events| && states == below + [cont] && !IsFirst(cont) && (e.kind == Alias || e.kind == Scalar)
      requires goal == Rest(Now(), plan, head + 1, out, Where(cont, below, indents, indent, flowLevel, false))
      modifies `state, `states
      ensures Emitted(e, cont, below)
    {
      hide Rest, Now, NoEmptyBlock;
      PopState();
    }

    method EmitScalar(e: Event, ghost cont: State, ghost below: seq<State>) returns (ok: bool)
      requires Pending(e, cont, below) && error == None && e.kind == Scalar
      modifies `style, `tagHandle, `error, `state, `states, `indents, `indent, `out
      ensures ok && error == None && indents == old(indents) && indent == old(indent) && Emitted(e, cont, below)
    {
      hide ScalarWrites, Anchoring, ValidData, Analyzed, Rest, After, Emitted, TagOf, AnchorText;
      LeafPrinted(Now(), plan, head, out, Where(cont, below, indents, indent, flowLevel, false),
          Place(rootContext, mappingContext, simpleKeyContext));
      ok := WriteScalar(e);
      GoOn(e, cont, below);
    }

    /** Writes a scalar with its anchor and its tag. */
    method WriteScalar(e: Event) returns (ok: bool)
      requires error == None && Analyzed(e) && ValidData(e) && e.kind == Scalar
      modifies `style, `tagHandle, `error, `indents, `indent, `out
      ensures ok && error == None && indents == old(indents) && indent == old(indent)
      ensures out == old(out)
        + ScalarWrites(Now(), e, indent, flowLevel, Place(rootContext, mappingContext, simpleKeyContext))
    {
      hide StyleOf, ScalarTag, ScalarWrites, ValidAnchor;
      ok := SelectScalarStyle(e);
      if ok {
        WriteStyled(e);
      }
    }

    /** The same when the style is known. */
    method WriteStyled(e: Event)
      requires e.kind == Scalar && anchor == AnchorText(e) && (anchor != "" ==> !alias) && value == e.value
      requires style == StyleOf(Now(), e, flowLevel > 0, simpleKeyContext)
      requires Tag(tagHandle, tagSuffix) == ScalarTag(Now(), e, style)
      modifies `indents, `indent, `out
      ensures indents == old(indents) && indent == old(indent)
      ensures out == old(out)
        + ScalarWrites(Now(), e, indent, flowLevel, Place(rootContext, mappingContext, simpleKeyContext))
    {
      hide StyleOf, ScalarTag, Tagging;
      ghost var out0 := out;
      ProcessAnchor();
      ProcessTag();
      ProcessScalar();
      assert out == out0 + Anchoring(e) + Tagging(ScalarTag(Now(), e, style))
        + [ScalarText(e.value, style, Inner(Now(), indent, true, false), !simpleKeyContext, rootContext)];
    }

    method ProcessScalar()
      modifies `indents, `indent, `out
      ensures indents == old(indents) && indent == old(indent)
      ensures out == old(out)
        + [ScalarText(value, style, Inner(Now(), indent, true, false), !simpleKeyContext, rootContext)]
    {
      IncreaseIndent(true, false);
      Put(ScalarText(value, style, indent, !simpleKeyContext, rootContext));
      DecreaseIndent();
      assert indents == old(indents);
    }

    /** Writes the anchor and the tag of a collection. */
    method ProcessProperties(e: Event)
      requires Analyzed(e) && (e.kind == SequenceStart || e.kind == MappingStart)
      modifies `out
      ensures out == old(out) + Anchoring(e) + Tagging(TagOf(Now(), e))
    {
      hide Tagging, TagOf;
      ProcessAnchor();
      ProcessTag();
    }

    /** Goes on at the start of a collection. */
    method Enter(first: State, e: Event, ghost cont: State, ghost below: seq<State>)
      requires head < |events| && states == below + [cont] && (e.kind == SequenceStart || e.kind == MappingStart)
      requires Placed(e.kind, states, states, first) && NoEmptyBlock(first, events[head + 1..])
      requires goal == Rest(Now(), plan, head + 1, out,
        Where(first, below + [cont], indents, indent, flowLevel, mappingContext &&
            first == BlockSequenceFirstItemState))
      modifies `state
      ensures Emitted(e, cont, below)
    {
      hide Rest, Now, NoEmptyBlock, Placed;
      state := first;
    }

    /** Is the collection written in flow style? It is if it must be, should be or is empty. */
    method WantsFlow(e: Event) returns (flow: bool)
      requires Queued(e) && (e.kind == SequenceStart || e.kind == MappingStart)
      ensures flow == InFlow(Now(), plan, head, flowLevel)
      ensures !flow ==> head + 1 < |events| && events[head + 1].kind != Closer(e.kind)
    {
      var empty := CheckEmptyCollection(e.kind, Closer(e.kind));
      return flowLevel > 0 || canonical || e.style == Flow || empty;
    }

    method EmitSequenceStart(e: Event, ghost cont: State, ghost below: seq<State>) returns (ok: bool)
      requires Pending(e, cont, below) && e.kind == SequenceStart
      modifies `state, `out
      ensures ok && Emitted(e, cont, below)
    {
      hide Analyzed, ValidData, Anchoring, TagOf, Tagging, Rest, After, InFlow, Emitted, Placed, NoEmptyBlock;
      CollectionStarted(Now(), plan, head, out, cont, below, indents, indent, flowLevel,
          Place(rootContext, mappingContext, simpleKeyContext));
      ProcessProperties(e);
      var flow := WantsFlow(e);
      StartFits(e.kind, flow, states, events[head + 1..]);
      Enter(if flow then FlowSequenceFirstItemState else BlockSequenceFirstItemState, e, cont, below);
      ok := true;
    }

    method EmitMappingStart(e: Event, ghost cont: State, ghost below: seq<State>) returns (ok: bool)
      requires Pending(e, cont, below) && e.kind == MappingStart
      modifies `state, `out
      ensures ok && Emitted(e, cont, below)
    {
      hide Analyzed, ValidData, Anchoring, TagOf, Tagging, Rest, After, InFlow, Emitted, Placed, NoEmptyBlock;
      CollectionStarted(Now(), plan, head, out, cont, below, indents, indent, flowLevel,
          Place(rootContext, mappingContext, simpleKeyContext));
      ProcessProperties(e);
      var flow := WantsFlow(e);
      StartFits(e.kind, flow, states, events[head + 1..]);
      Enter(if flow then FlowMappingFirstKeyState else BlockMappingFirstKeyState, e, cont, below);
      ok := true;
    }

    // ----- States ----------------------------------------------------------------------

    /** The event `e`, which need not be legal in `g`, is being handled. */
    ghost predicate Handling(e: Event, g: Grammar)
      reads this
    {
      && Queued(e) && error == None && Analyzed(e) && ValidData(e)
      && Control(state, states, g)
      && NoEmptyBlock(state, events[head..]) && Handles(tagDirectives) && (!InDocument(state) ==> tagDirectives == [])
    }

    /** The event was handled, which led to `g`. */
    ghost predicate Handled(e: Event, g: Grammar)
      reads this
    {
      && head < |events| && error == None
      && Control(state, states, g) && Levels(states + [state], indents, indent, flowLevel)
      && NoEmptyBlock(state, events[head + 1..]) && Handles(tagDirectives)
      && (!InDocument(state) ==> tagDirectives == [])
      && Ahead(head + 1)
    }

    lemma InPlan(e: Event)
      requires Queued(e)
      ensures head < |plan| && plan[head] == e && head < |events| && events <= plan
    {
    }

    /** Pushes the state to go on in and emits the node. */
    method NodeThen(cont: State, e: Event, root: bool, mapping: bool, simpleKey: bool, ghost g: Grammar)
        returns (ok: bool)
      requires Handling(e, g) && InDocument(state) && FrameOf(state) != DocFrame(true)
      requires Resumes(cont, states == []) && FrameOf(cont) == Fill(FrameOf(state))
      requires Levels(states + [cont], indents, indent, flowLevel)
      requires IsNode(e.kind) ==>
        goal == After(Now(), plan, head, out, Where(cont, states, indents, indent, flowLevel, false),
            Place(root, mapping, simpleKey))
      modifies `rootContext, `mappingContext, `simpleKeyContext, `style, `tagHandle, `error, `state, `states,
        `indents, `indent, `out
      ensures ok == (error == None) == IsNode(e.kind)
      ensures ok ==> Handled(e, Step(g, e.kind))
    {
      hide Analyzed, ValidData, Control, Step, Count, CountFlow, Resumes, Rest, After, Now, Here;
      ghost var state0, states0 := state, states;
      CountOne(states, cont);
      Continues(cont, states == []);
      states := states + [cont];
      ok := EmitNode(e, root, mapping, simpleKey, cont, states0);
      if !ok {
        return;
      }
      Expected(g, state0, states0, e.kind);
      NodePlaced(g, e.kind, state0, states0, cont, state, states);
      NotBlockFirst(state, events[head + 1..], e.kind, states0, cont, states);
    }

    /** Leaves a collection. */
    method LeaveCollection(e: Event, closing: string, comma: bool, ghost g: Grammar)
      requires Handling(e, g) && Step(g, e.kind) != Reject && (e.kind == SequenceEnd || e.kind == MappingEnd)
      requires indents != [] && Levels(states, Init(indents), Last(indents), flowLevel)
      requires states != [] ==>
        goal == Rest(Now(), plan, head + 1, ClosedWith(out, closing, comma, Last(indents)),
          Where(Last(states), Init(states), Init(indents), Last(indents), flowLevel, false))
      modifies `state, `states, `indents, `indent, `out
      ensures Handled(e, Step(g, e.kind))
    {
      hide Analyzed, ValidData, Control, Step, Levels, Handles, NoEmptyBlock, Rest, ClosedWith, Now;
      Left(g, e.kind, state, states, events[head + 1..]);
      DecreaseIndent();
      WriteClosing(closing, comma);
      PopState();
    }

    method WriteClosing(closing: string, comma: bool)
      modifies `out
      ensures out == ClosedWith(old(out), closing, comma, indent)
    {
      if comma {
        WriteIndicator(",", false, false, false);
        WriteIndent();
      }
      if closing != "" {
        WriteIndicator(closing, false, false, false);
      }
    }

    /** Goes on with a flow collection; the first child is indented. */
    method ContinueFlow(first: bool, open: string, item: State, ghost sequence: bool)
      requires Levels(states + [state], indents, indent, flowLevel) && states != [] && Ahead(head)
      requires item == (if sequence then FlowSequenceItemState else FlowMappingKeyState)
      requires state == (if first then FirstState(sequence, true) else item) && open == if sequence then "[" else "{"
      modifies `indents, `indent, `flowLevel, `out
      ensures Levels(states + [item], indents, indent, flowLevel)
      ensures goal == InFlowCollection(Now(), plan, head, out,
        Where(item, states, indents, indent, flowLevel, false), first)
    {
      hide Levels, Rest, InFlowCollection;
      if first {
        FlowEntered(Now(), plan, head, out, sequence, states, indents, indent, flowLevel);
        EnterFlow(open, item);
      } else {
        FlowGoesOn(Now(), plan, head, out, Here());
      }
    }

    /** The first child of a flow collection is indented. */
    method EnterFlow(open: string, item: State)
      requires Levels(states + [state], indents, indent, flowLevel) && IsFirst(state) && IsFlow(item) && Indents(item)
      modifies `indents, `indent, `flowLevel, `out
      ensures Levels(states + [item], indents, indent, flowLevel) && out == old(out) + [Opening(open)]
      ensures indents == old(indents) + [old(indent)] && indent == Inner(Now(), old(indent), true, false) &&
        flowLevel == old(flowLevel) + 1
    {
      hide Count, CountFlow, Inner;
      CountOne(states, state);
      CountOne(states, item);
      WriteIndicator(open, true, true, false);
      IncreaseIndent(true, false);
      flowLevel := flowLevel + 1;
    }

    method EnterBlock(indentless: bool, item: State)
      requires Levels(states + [state], indents, indent, flowLevel) && IsFirst(state) && !IsFlow(item) && Indents(item)
      modifies `indents, `indent
      ensures Levels(states + [item], indents, indent, flowLevel)
      ensures indents == old(indents) + [old(indent)] && indent == Inner(Now(), old(indent), false, indentless)
    {
      hide Count, CountFlow, Inner;
      CountOne(states, state);
      CountOne(states, item);
      IncreaseIndent(false, indentless);
    }

    method LeaveFlow(e: Event, closing: string, first: bool, item: State, ghost g: Grammar)
      requires Handling(e, g) && Step(g, e.kind) != Reject && IsFlow(item) && states != []
      requires Levels(states + [item], indents, indent, flowLevel)
      requires (item, closing, e.kind) == (FlowSequenceItemState, "]", SequenceEnd)
            || (item, closing, e.kind) == (FlowMappingKeyState, "}", MappingEnd)
      requires goal == InFlowCollection(Now(), plan, head, out,
        Where(item, states, indents, indent, flowLevel, false), first)
      modifies `state, `states, `indents, `indent, `flowLevel, `out
      ensures Handled(e, Step(g, e.kind))
    {
      hide Analyzed, ValidData, Control, Step, Levels, Handles, NoEmptyBlock, Count, CountFlow, Rest, InFlowCollection;
      LevelsBelow(states, item, indents, indent, flowLevel);
      FlowClosed(Now(), plan, head, out, Where(item, states, indents, indent, flowLevel, false), first);
      flowLevel := flowLevel - 1;
      LeaveCollection(e, closing, canonical && !first, g);
    }

    /** Starts the next child of a flow collection. */
    method SeparateFlow(first: bool)
      modifies `out
      ensures out == Separated(Now(), old(out), indent, first)
    {
      if !first {
        WriteIndicator(",", false, false, false);
      }
      if canonical || pen(out).column > bestWidth {
        WriteIndent();
      }
    }

    /** Expect a flow item node. */
    method EmitFlowSequenceItem(e: Event, first: bool, ghost g: Grammar) returns (ok: bool)
      requires Handling(e, g) && Ahead(head) && Levels(states + [state], indents, indent, flowLevel)
      requires state == if first then FlowSequenceFirstItemState else FlowSequenceItemState
      modifies `rootContext, `mappingContext, `simpleKeyContext, `style, `tagHandle, `error, `state, `states,
        `indents, `indent, `flowLevel, `out
      ensures ok == (error == None) == (Step(g, e.kind) != Reject)
      ensures ok ==> Handled(e, Step(g, e.kind))
    {
      hide Analyzed, ValidData, Control, Step, Levels, Handles, NoEmptyBlock, Count, CountFlow, Rest, After,
        InFlowCollection, Separated, Queued;
      InPlan(e);
      Expected(g, state, states, e.kind);
      ContinueFlow(first, "[", FlowSequenceItemState, true);
      if e.kind == SequenceEnd {
        LeaveFlow(e, "]", first, FlowSequenceItemState, g);
        return true;
      }
      ok := EmitFlowItem(e, first, g);
    }

    /** The separator of an item and its node. */
    method EmitFlowItem(e: Event, first: bool, ghost g: Grammar) returns (ok: bool)
      requires Handling(e, g) && InDocument(state) && FrameOf(state) == SeqFrame && states != []
      requires Levels(states + [FlowSequenceItemState], indents, indent, flowLevel)
      requires goal == InFlowCollection(Now(), plan, head, out,
        Where(FlowSequenceItemState, states, indents, indent, flowLevel, false), first)
      modifies `rootContext, `mappingContext, `simpleKeyContext, `style, `tagHandle, `error, `state, `states,
        `indents, `indent, `flowLevel, `out
      ensures ok == (error == None) == IsNode(e.kind)
      ensures ok ==> Handled(e, Step(g, e.kind))
    {
      hide Handled, Analyzed, ValidData, Control, Step, Levels, Handles, NoEmptyBlock, Count, CountFlow, Rest, After,
        InFlowCollection, Separated, Queued;
      InPlan(e);
      if IsNode(e.kind) {
        FlowItemNext(Now(), plan, head, out, Where(FlowSequenceItemState, states, indents, indent, flowLevel, false),
            first);
      }
      SeparateFlow(first);
      ok := NodeThen(FlowSequenceItemState, e, false, false, false, g);
    }

    /** A key, without an indicator if it is simple. */
    method EmitKey(item: State, simpleValue: State, value: State, block: bool, maySimple: bool, e: Event,
        ghost g: Grammar) returns (ok: bool)
      requires Handling(e, g) && InDocument(state) && states != [] && FrameOf(state) == MapFrame(true)
      requires Levels(states + [item], indents, indent, flowLevel)
      requires (item, simpleValue, value) ==
        if block then (BlockMappingKeyState, BlockMappingSimpleValueState, BlockMappingValueState)
        else (FlowMappingKeyState, FlowMappingSimpleValueState, FlowMappingValueState)
      requires IsNode(e.kind) ==>
        goal == if maySimple && SimpleKey(Now(), plan, head) then
            After(Now(), plan, head, out, Where(simpleValue, states, indents, indent, flowLevel, false), KEY(true))
          else
            After(Now(), plan, head, out + [Indicator("?", true, false, block)],
              Where(value, states, indents, indent, flowLevel, false), KEY(false))
      modifies `rootContext, `mappingContext, `simpleKeyContext, `style, `tagHandle, `error, `state, `states,
        `indents, `indent, `flowLevel, `out
      ensures ok == (error == None) == IsNode(e.kind)
      ensures ok ==> Handled(e, Step(g, e.kind))
    {
      hide Analyzed, ValidData, Control, Step, Levels, Handles, NoEmptyBlock, Count, CountFlow, Rest, After,
        SimpleKey, Now, Queued;
      InPlan(e);
      SameLevels(states, item, simpleValue, indents, indent, flowLevel);
      SameLevels(states, item, value, indents, indent, flowLevel);
      var simple := CheckSimpleKey(e);
      if maySimple && simple {
        ok := NodeThen(simpleValue, e, false, true, true, g);
        return;
      }
      WriteIndicator("?", true, false, block);
      ok := NodeThen(value, e, false, true, false, g);
    }

    /** Expect a flow key node. */
    method EmitFlowMappingKey(e: Event, first: bool, ghost g: Grammar) returns (ok: bool)
      requires Handling(e, g) && Ahead(head) && Levels(states + [state], indents, indent, flowLevel)
      requires state == if first then FlowMappingFirstKeyState else FlowMappingKeyState
      modifies `rootContext, `mappingContext, `simpleKeyContext, `style, `tagHandle, `error, `state, `states,
        `indents, `indent, `flowLevel, `out
      ensures ok == (error == None) == (Step(g, e.kind) != Reject)
      ensures ok ==> Handled(e, Step(g, e.kind))
    {
      hide Analyzed, ValidData, Control, Step, Levels, Handles, NoEmptyBlock, Count, CountFlow, Rest, After,
        InFlowCollection;
      Expected(g, state, states, e.kind);
      ContinueFlow(first, "{", FlowMappingKeyState, false);
      if e.kind == MappingEnd {
        LeaveFlow(e, "}", first, FlowMappingKeyState, g);
        return true;
      }
      if IsNode(e.kind) {
        FlowKeyNext(Now(), plan, head, out, Where(FlowMappingKeyState, states, indents, indent, flowLevel, false),
            first);
      }
      SeparateFlow(first);
      ok := EmitKey(FlowMappingKeyState, FlowMappingSimpleValueState, FlowMappingValueState, false, !canonical, e, g);
    }

    /** Expect a flow value node. */
    method EmitFlowMappingValue(e: Event, simple: bool, ghost g: Grammar) returns (ok: bool)
      requires Handling(e, g) && Ahead(head) && Levels(states + [state], indents, indent, flowLevel)
      requires state == if simple then FlowMappingSimpleValueState else FlowMappingValueState
      modifies `rootContext, `mappingContext, `simpleKeyContext, `style, `tagHandle, `error, `state, `states,
        `indents, `indent, `flowLevel, `out
      ensures ok == (error == None) == (Step(g, e.kind) != Reject)
      ensures ok ==> Handled(e, Step(g, e.kind))
    {
      hide Analyzed, ValidData, Control, Step, Levels, Handles, NoEmptyBlock, Count, CountFlow, Rest, After,
        InFlowCollection;
      Expected(g, state, states, e.kind);
      SameLevels(states, state, FlowMappingKeyState, indents, indent, flowLevel);
      if IsNode(e.kind) {
        FlowValueNext(Now(), plan, head, out, Here(), simple);
      }
      if simple {
        WriteIndicator(":", false, false, false);
      } else {
        if canonical || pen(out).column > bestWidth {
          WriteIndent();
        }
        WriteIndicator(":", true, false, false);
      }
      ok := NodeThen(FlowMappingKeyState, e, false, true, false, g);
    }

    /** Goes on with a block collection; the first child is indented. */
    method ContinueBlock(first: bool, indentless: bool, item: State, ghost sequence: bool)
      requires Levels(states + [state], indents, indent, flowLevel) && states != [] && Ahead(head)
      requires item == (if sequence then BlockSequenceItemState else BlockMappingKeyState)
      requires state == (if first then FirstState(sequence, false) else item)
      requires indentless == (sequence && mappingContext && !pen(out).indention)
      modifies `indents, `indent
      ensures Levels(states + [item], indents, indent, flowLevel)
      ensures goal == Rest(Now(), plan, head, out, Where(item, states, indents, indent, flowLevel, false))
    {
      hide Levels, Rest;
      if first {
        BlockEntered(Now(), plan, head, out, sequence, states, indents, indent, flowLevel, mappingContext && sequence);
        EnterBlock(indentless, item);
      }
    }

    method LeaveBlock(e: Event, item: State, ghost g: Grammar)
      requires Handling(e, g) && Step(g, e.kind) != Reject && states != []
      requires Levels(states + [item], indents, indent, flowLevel)
      requires (item, e.kind) == (BlockSequenceItemState, SequenceEnd)
        || (item, e.kind) == (BlockMappingKeyState, MappingEnd)
      requires goal == Rest(Now(), plan, head, out, Where(item, states, indents, indent, flowLevel, false))
      modifies `state, `states, `indents, `indent, `out
      ensures Handled(e, Step(g, e.kind))
    {
      hide Analyzed, ValidData, Control, Step, Levels, Handles, NoEmptyBlock, Count, CountFlow, Rest;
      LevelsBelow(states, item, indents, indent, flowLevel);
      BlockClosed(Now(), plan, head, out, Where(item, states, indents, indent, flowLevel, false));
      LeaveCollection(e, "", false, g);
    }

    /** Expect a block item node; the first one is there. */
    method EmitBlockSequenceItem(e: Event, first: bool, ghost g: Grammar) returns (ok: bool)
      requires Handling(e, g) && Ahead(head) && Levels(states + [state], indents, indent, flowLevel)
      requires state == if first then BlockSequenceFirstItemState else BlockSequenceItemState
      modifies `rootContext, `mappingContext, `simpleKeyContext, `style, `tagHandle, `error, `state, `states,
        `indents, `indent, `flowLevel, `out
      ensures ok == (error == None) == (Step(g, e.kind) != Reject)
      ensures ok ==> Handled(e, Step(g, e.kind))
    {
      hide Analyzed, ValidData, Control, Step, Levels, Handles, NoEmptyBlock, Count, CountFlow, Rest, After,
        InFlowCollection, Queued;
      InPlan(e);
      Expected(g, state, states, e.kind);
      ContinueBlock(first, mappingContext && !pen(out).indention, BlockSequenceItemState, true);
      if e.kind == SequenceEnd {
        LeaveBlock(e, BlockSequenceItemState, g);
        return true;
      }
      ok := EmitBlockItem(e, g);
    }

    /** The indicator of an item and its node. */
    method EmitBlockItem(e: Event, ghost g: Grammar) returns (ok: bool)
      requires Handling(e, g) && InDocument(state) && FrameOf(state) == SeqFrame && states != []
      requires Levels(states + [BlockSequenceItemState], indents, indent, flowLevel)
      requires goal ==
        Rest(Now(), plan, head, out, Where(BlockSequenceItemState, states, indents, indent, flowLevel, false))
      modifies `rootContext, `mappingContext, `simpleKeyContext, `style, `tagHandle, `error, `state, `states,
        `indents, `indent, `out
      ensures ok == (error == None) == IsNode(e.kind)
      ensures ok ==> Handled(e, Step(g, e.kind))
    {
      hide Handled, Analyzed, ValidData, Control, Step, Levels, Handles, NoEmptyBlock, Count, CountFlow, Rest, After,
        Queued;
      InPlan(e);
      if IsNode(e.kind) {
        BlockItemNext(Now(), plan, head, out, Where(BlockSequenceItemState, states, indents, indent, flowLevel, false));
      }
      WriteBlockIndicator("-");
      ok := NodeThen(BlockSequenceItemState, e, false, false, false, g);
    }

    /** Expect a block key node; the first one is there. */
    method EmitBlockMappingKey(e: Event, first: bool, ghost g: Grammar) returns (ok: bool)
      requires Handling(e, g) && Ahead(head) && Levels(states + [state], indents, indent, flowLevel)
      requires state == if first then BlockMappingFirstKeyState else BlockMappingKeyState
      modifies `rootContext, `mappingContext, `simpleKeyContext, `style, `tagHandle, `error, `state, `states,
        `indents, `indent, `flowLevel, `out
      ensures ok == (error == None) == (Step(g, e.kind) != Reject)
      ensures ok ==> Handled(e, Step(g, e.kind))
    {
      hide Analyzed, ValidData, Control, Step, Levels, Handles, NoEmptyBlock, Count, CountFlow, Rest, After,
        InFlowCollection;
      Expected(g, state, states, e.kind);
      ContinueBlock(first, false, BlockMappingKeyState, false);
      if e.kind == MappingEnd {
        LeaveBlock(e, BlockMappingKeyState, g);
        return true;
      }
      if IsNode(e.kind) {
        BlockKeyNext(Now(), plan, head, out, Where(BlockMappingKeyState, states, indents, indent, flowLevel, false));
      }
      WriteIndent();
      ok := EmitKey(BlockMappingKeyState, BlockMappingSimpleValueState, BlockMappingValueState, true, true, e, g);
    }

    /** An indicator of block style in its line. */
    method WriteBlockIndicator(text: string)
      modifies `out
      ensures out == old(out) + [IndentTo(indent), Compact(text)]
    {
      WriteIndent();
      WriteIndicator(text, true, false, true);
    }

    /** Expect a block value node. */
    method EmitBlockMappingValue(e: Event, simple: bool, ghost g: Grammar) returns (ok: bool)
      requires Handling(e, g) && Ahead(head) && Levels(states + [state], indents, indent, flowLevel)
      requires state == if simple then BlockMappingSimpleValueState else BlockMappingValueState
      modifies `rootContext, `mappingContext, `simpleKeyContext, `style, `tagHandle, `error, `state, `states,
        `indents, `indent, `flowLevel, `out
      ensures ok == (error == None) == (Step(g, e.kind) != Reject)
      ensures ok ==> Handled(e, Step(g, e.kind))
    {
      hide Analyzed, ValidData, Control, Step, Levels, Handles, NoEmptyBlock, Count, CountFlow, Rest, After,
        InFlowCollection;
      Expected(g, state, states, e.kind);
      SameLevels(states, state, BlockMappingKeyState, indents, indent, flowLevel);
      if IsNode(e.kind) {
        BlockValueNext(Now(), plan, head, out, Here(), simple);
      }
      if simple {
        WriteIndicator(":", false, false, false);
      } else {
        WriteBlockIndicator(":");
      }
      ok := NodeThen(BlockMappingKeyState, e, false, true, false, g);
    }

    /** Expect the root node. */
    method EmitDocumentContent(e: Event, ghost g: Grammar) returns (ok: bool)
      requires Handling(e, g) && Ahead(head) && Levels(states + [state], indents, indent, flowLevel)
      requires state == DocumentContentState
      modifies `rootContext, `mappingContext, `simpleKeyContext, `style, `tagHandle, `error, `state, `states,
        `indents, `indent, `flowLevel, `out
      ensures ok == (error == None) == (Step(g, e.kind) != Reject)
      ensures ok ==> Handled(e, Step(g, e.kind))
    {
      hide Analyzed, ValidData, Control, Step, Levels, Handles, NoEmptyBlock, Count, CountFlow, Rest, After,
        InFlowCollection;
      Expected(g, state, states, e.kind);
      NoLevels(state, indents, indent, flowLevel);
      SameLevels(states, state, DocumentEndState, indents, indent, flowLevel);
      if IsNode(e.kind) {
        RootNext(Now(), plan, head, out);
      }
      ok := NodeThen(DocumentEndState, e, true, false, false, g);
    }

    /** Expect DOCUMENT-END. */
    method EmitDocumentEnd(e: Event, ghost g: Grammar) returns (ok: bool)
      requires Handling(e, g) && Ahead(head) && Levels(states + [state], indents, indent, flowLevel)
      requires state == DocumentEndState
      modifies `error, `state, `tagDirectives, `out
      ensures ok == (error == None) == (Step(g, e.kind) != Reject)
      ensures ok ==> Handled(e, Step(g, e.kind))
    {
      hide Analyzed, ValidData, Levels, Control, Step, Rest;
      Outside(g, state, states, e.kind);
      NoLevels(state, indents, indent, flowLevel);
      SameLevels(states, state, DocumentStartState, indents, indent, flowLevel);
      if e.kind != DocumentEnd {
        ok := SetError("expected DOCUMENT-END");
        return;
      }
      DocumentEnded(Now(), plan, head, out);
      EndDocument(e.implicit);
      ok := true;
    }

    method EndDocument(implicit: bool)
      requires indent == -1
      modifies `state, `tagDirectives, `out
      ensures state == DocumentStartState && tagDirectives == []
      ensures out == old(out) + [Indent(0)] + if implicit then [] else [Spaced("..."), Indent(0)]
    {
      WriteIndent();
      if !implicit {
        WriteIndicator("...", true, false, false);
        WriteIndent();
      }
      state := DocumentStartState;
      tagDirectives := [];
    }

    method AnalyzeTagDirective(d: TagDirective) returns (ok: bool)
      requires error == None
      modifies `error
      ensures ok == (error == None) == ValidTagDirective(d)
    {
      if d.handle == "" {
        ok := SetError("tag handle must not be empty");
        return;
      }
      if d.handle[0] != '!' {
        ok := SetError("tag handle must start with '!'");
        return;
      }
      if d.handle[|d.handle| - 1] != '!' {
        ok := SetError("tag handle must end with '!'");
        return;
      }
      var i := 1;
      while i < |d.handle| - 1
        invariant 1 <= i && error == None && forall k :: 1 <= k < i && k < |d.handle| - 1 ==> IsAlpha(d.handle[k])
      {
        if !IsAlpha(d.handle[i]) {
          ok := SetError("tag handle must contain alphanumerical characters only");
          return;
        }
        i := i + 1;
      }
      if d.prefix == "" {
        ok := SetError("tag prefix must not be empty");
        return;
      }
      ok := true;
    }

    method AppendTagDirective(d: TagDirective, allowDuplicates: bool) returns (ok: bool)
      requires error == None
      modifies `error, `tagDirectives
      ensures ok == (error == None) == (allowDuplicates || !HasHandle(old(tagDirectives), d.handle))
      ensures tagDirectives == if HasHandle(old(tagDirectives), d.handle) then old(tagDirectives)
        else old(tagDirectives) + [d]
    {
      var i := 0;
      while i < |tagDirectives|
        invariant i <= |tagDirectives| && forall k :: 0 <= k < i ==> tagDirectives[k].handle != d.handle
      {
        if tagDirectives[i].handle == d.handle {
          if allowDuplicates {
            return true;
          }
          ok := SetError("duplicate %TAG directive");
          return;
        }
        i := i + 1;
      }
      tagDirectives := tagDirectives + [d];
      ok := true;
    }

    /** Takes over the tag directives of a document; the default ones are added. */
    method AddTagDirectives(ds: seq<TagDirective>) returns (ok: bool)
      requires error == None && tagDirectives == []
      modifies `error, `tagDirectives
      ensures ok == (error == None) == ((forall i :: 0 <= i < |ds| ==> ValidTagDirective(ds[i])) && Distinct(ds))
      ensures ok ==> tagDirectives == AddMissing(ds, DEFAULT_DIRECTIVES) && Handles(tagDirectives)
    {
      hide ValidTagDirective;
      var i := 0;
      while i < |ds|
        invariant i <= |ds| && error == None && tagDirectives == ds[..i]
        invariant (forall k :: 0 <= k < i ==> ValidTagDirective(ds[k])) && Distinct(ds[..i])
      {
        ok := AnalyzeTagDirective(ds[i]);
        if !ok {
          return;
        }
        NewHandle(ds, i);
        ok := AppendTagDirective(ds[i], false);
        if !ok {
          return;
        }
        i := i + 1;
      }
      assert ds[..i] == ds;
      AllHaveHandles(ds);
      AddDefaultDirectives();
      ok := true;
    }

    method AddDefaultDirectives()
      requires error == None && Handles(tagDirectives)
      modifies `error, `tagDirectives
      ensures error == None && tagDirectives == AddMissing(old(tagDirectives), DEFAULT_DIRECTIVES) &&
        Handles(tagDirectives)
    {
      hide HasHandle;
      ghost var ds := tagDirectives;
      var i := 0;
      while i < |DEFAULT_DIRECTIVES|
        invariant i <= |DEFAULT_DIRECTIVES| && error == None && Handles(tagDirectives)
        invariant AddMissing(tagDirectives, DEFAULT_DIRECTIVES[i..]) == AddMissing(ds, DEFAULT_DIRECTIVES)
      {
        var _ := AppendTagDirective(DEFAULT_DIRECTIVES[i], true);
        i := i + 1;
      }
    }

    method WriteDocumentStart(e: Event, first: bool)
      requires indent == -1
      modifies `out
      ensures out == Head(Now(), e, old(out), first)
    {
      hide Directives;
      WriteVersion(e);
      WriteDirectives(e.tagDirectives);
      WriteStart(e.implicit && first && !canonical && e.version == None && e.tagDirectives == []);
    }

    method WriteVersion(e: Event)
      requires indent == -1
      modifies `out
      ensures out == Versioned(Now(), e, old(out))
    {
      if pen(out).openEnded && (e.version != None || e.tagDirectives != []) {
        WriteIndicator("...", true, false, false);
        WriteIndent();
      }
      if e.version != None {
        WriteIndicator("%YAML", true, false, false);
        WriteIndicator("1.1", true, false, false);
        WriteIndent();
      }
    }

    method WriteStart(implicit: bool)
      requires indent == -1
      modifies `out
      ensures out == if implicit then old(out) else Started(Now(), old(out))
    {
      if !implicit {
        WriteIndent();
        WriteIndicator("---", true, false, false);
        if canonical {
          WriteIndent();
        }
      }
    }

    method WriteDirectives(ds: seq<TagDirective>)
      requires indent == -1
      modifies `out
      ensures out == old(out) + Directives(ds)
    {
      var i := 0;
      while i < |ds|
        invariant i <= |ds| && out == old(out) + Directives(ds[..i])
      {
        WriteIndicator("%TAG", true, false, false);
        Put(TagText(ds[i].handle, ds[i].prefix));
        WriteIndent();
        assert ds[..i + 1][..i] == ds[..i];
        i := i + 1;
      }
      assert ds[..i] == ds;
    }

    /** Expect DOCUMENT-START or STREAM-END. */
    method EmitDocumentStart(e: Event, first: bool, ghost g: Grammar) returns (ok: bool)
      requires Handling(e, g) && Ahead(head) && Levels(states + [state], indents, indent, flowLevel)
      requires state == if first then FirstDocumentStartState else DocumentStartState
      modifies `error, `state, `tagDirectives, `out
      ensures ok == (error == None) == (Step(g, e.kind) != Reject)
      ensures ok ==> Handled(e, Step(g, e.kind))
    {
      hide Analyzed, Levels, Control, Step, ValidTagDirective, Distinct, Rest, Head, AddMissing, NoEmptyBlock,
        Handles, Ahead, Queued, ValidData;
      Outside(g, state, states, e.kind);
      if e.kind == DocumentStart {
        ok := BeginDocument(e, first, g);
      } else if e.kind == StreamEnd {
        FinishStream(e, first, g);
        ok := true;
      } else {
        ok := SetError("expected DOCUMENT-START or STREAM-END");
      }
    }

    method BeginDocument(e: Event, first: bool, ghost g: Grammar) returns (ok: bool)
      requires Handling(e, g) && Ahead(head) && Levels(states + [state], indents, indent, flowLevel) &&
        e.kind == DocumentStart
      requires state == if first then FirstDocumentStartState else DocumentStartState
      modifies `error, `state, `tagDirectives, `out
      ensures ok && Handled(e, Step(g, e.kind))
    {
      hide Analyzed, Levels, Control, Step, ValidTagDirective, Distinct, Rest, Head, AddMissing, NoEmptyBlock, Handles;
      Outside(g, state, states, e.kind);
      NoLevels(state, indents, indent, flowLevel);
      SameLevels(states, state, DocumentContentState, indents, indent, flowLevel);
      NotFirst(DocumentContentState, events[head + 1..]);
      DocumentStarted(Now(), plan, head, out, first);
      ok := StartDocument(e, first);
    }

    method FinishStream(e: Event, first: bool, ghost g: Grammar)
      requires Handling(e, g) && Ahead(head) && Levels(states + [state], indents, indent, flowLevel) &&
        e.kind == StreamEnd
      requires state == if first then FirstDocumentStartState else DocumentStartState
      modifies `state, `out
      ensures Handled(e, Step(g, e.kind))
    {
      hide Analyzed, Levels, Control, Step, ValidTagDirective, Distinct, Rest, Head, AddMissing, NoEmptyBlock, Handles;
      Outside(g, state, states, e.kind);
      NoLevels(state, indents, indent, flowLevel);
      SameLevels(states, state, EndState, indents, indent, flowLevel);
      NotFirst(EndState, events[head + 1..]);
      StreamEnded(Now(), plan, head, out, first);
      EndStream();
    }

    method EndStream()
      requires indent == -1
      modifies `state, `out
      ensures state == EndState
      ensures out == if pen(old(out)).openEnded then old(out) + [Spaced("..."), Indent(0)] else old(out)
    {
      if pen(out).openEnded {
        WriteIndicator("...", true, false, false);
        WriteIndent();
      }
      state := EndState;
    }

    method StartDocument(e: Event, first: bool) returns (ok: bool)
      requires error == None && tagDirectives == [] && e.kind == DocumentStart && indent == -1
      modifies `error, `state, `tagDirectives, `out
      ensures ok == (error == None) == ValidData(e)
      ensures ok ==> state == DocumentContentState && Handles(tagDirectives)
      ensures ok ==>
        tagDirectives == AddMissing(e.tagDirectives, DEFAULT_DIRECTIVES) && out == Head(Now(), e, old(out), first)
    {
      hide Distinct, ValidTagDirective, Handles, Head, AddMissing;
      if e.version != None && e.version != Some((1, 1)) {
        ok := SetError("incompatible %YAML directive");
        return;
      }
      ok := AddTagDirectives(e.tagDirectives);
      if !ok {
        return;
      }
      WriteDocumentStart(e, first);
      state := DocumentContentState;
    }

    /** Expect STREAM-START. */
    method EmitStreamStart(e: Event, ghost g: Grammar) returns (ok: bool)
      requires Handling(e, g) && Ahead(head) && Levels(states + [state], indents, indent, flowLevel)
      requires state == StreamStartState
      modifies `error, `state, `indent, `bestIndent, `bestWidth
      ensures ok == (error == None) == (Step(g, e.kind) != Reject)
      ensures ok ==> Handled(e, Step(g, e.kind))
    {
      hide Analyzed, ValidData, Control, Step, Levels, Rest, Normal;
      Outside(g, state, states, e.kind);
      SameLevels(states, state, FirstDocumentStartState, indents, indent, flowLevel);
      NoLevels(state, indents, indent, flowLevel);
      if e.kind != StreamStart {
        ok := SetError("expected STREAM-START");
        return;
      }
      StreamStarted(Now(), plan, head, out, Here());
      Normalize();
      indent := -1;
      state := FirstDocumentStartState;
      ok := true;
    }

    /** Brings the indentation and the width within their limits. */
    method Normalize()
      modifies `bestIndent, `bestWidth
      ensures Now() == Normal(old(Now()))
    {
      if bestIndent < 2 || bestIndent > 9 {
        bestIndent := 2;
      }
      if 0 <= bestWidth <= bestIndent * 2 {
        bestWidth := 80;
      }
      if bestWidth < 0 {
        bestWidth := 0x7FFF_FFFF;
      }
    }

    /** Handles one event, if it is legal. */
    method StateMachine(e: Event, ghost g: Grammar) returns (ok: bool)
      requires Handling(e, g) && Ahead(head) && Levels(states + [state], indents, indent, flowLevel)
      modifies `rootContext, `mappingContext, `simpleKeyContext, `style, `tagHandle, `error, `state, `states,
        `indents, `indent, `flowLevel, `out,
        `tagDirectives, `bestIndent, `bestWidth
      ensures ok == (error == None) == (Step(g, e.kind) != Reject)
      ensures ok ==> Handled(e, Step(g, e.kind))
    {
      hide Analyzed, ValidData, Levels, Handles, NoEmptyBlock, Count, CountFlow, FramesOf, Rest, Ahead, Queued;
      match state {
        case StreamStartState => ok := EmitStreamStart(e, g);
        case FirstDocumentStartState => ok := EmitDocumentStart(e, true, g);
        case DocumentStartState => ok := EmitDocumentStart(e, false, g);
        case DocumentContentState => ok := EmitDocumentContent(e, g);
        case DocumentEndState => ok := EmitDocumentEnd(e, g);
        case FlowSequenceFirstItemState => ok := EmitFlowSequenceItem(e, true, g);
        case FlowSequenceItemState => ok := EmitFlowSequenceItem(e, false, g);
        case FlowMappingFirstKeyState => ok := EmitFlowMappingKey(e, true, g);
        case FlowMappingKeyState => ok := EmitFlowMappingKey(e, false, g);
        case FlowMappingSimpleValueState => ok := EmitFlowMappingValue(e, true, g);
        case FlowMappingValueState => ok := EmitFlowMappingValue(e, false, g);
        case BlockSequenceFirstItemState => ok := EmitBlockSequenceItem(e, true, g);
        case BlockSequenceItemState => ok := EmitBlockSequenceItem(e, false, g);
        case BlockMappingFirstKeyState => ok := EmitBlockMappingKey(e, true, g);
        case BlockMappingKeyState => ok := EmitBlockMappingKey(e, false, g);
        case BlockMappingSimpleValueState => ok := EmitBlockMappingValue(e, true, g);
        case BlockMappingValueState => ok := EmitBlockMappingValue(e, false, g);
        case EndState => ok := SetError("expected nothing after STREAM-END");
      }
    }

    // ----- The queue -------------------------------------------------------------------

    /** Is the queue too short to emit its first event? */
    method NeedMoreEvents() returns (more: bool)
      requires head <= |events|
      ensures more == Waits(Kinds(events[head..])) && (!more ==> head < |events|)
    {
      ghost var ks := Kinds(events[head..]);
      if head == |events| {
        return true;
      }
      assert ks[0] == events[head].kind;
      var accumulate := Accumulate(events[head].kind);
      if accumulate == 0 || |events| - head > accumulate {
        return false;
      }
      var level := 0;
      var i := head;
      assert ks[..0] == [];
      while i < |events|
        invariant head <= i <= |events| && level == Level(ks[..i - head])
        invariant forall k :: 0 < k <= i - head ==> Level(ks[..k]) != 0
      {
        assert ks[..i - head + 1][..i - head] == ks[..i - head] && ks[i - head] == events[i].kind;
        level := level + Delta(events[i].kind);
        i := i + 1;
        if level == 0 {
          return false;
        }
      }
      more := true;
    }

    /** Handles the first event of the queue. */
    method HandleFirst(ghost g: Grammar) returns (ok: bool)
      requires Valid() && head < |events| && g == Open() && !Waits(Kinds(events[head..]))
      modifies `rootContext, `mappingContext, `simpleKeyContext, `style, `tagHandle, `error, `state, `states,
        `indents, `indent, `flowLevel, `out,
        `tagDirectives, `bestIndent, `bestWidth, `anchor, `alias, `tagSuffix, `scalar, `value, `head
      ensures ok == (error == None) == (Step(g, events[old(head)].kind) != Reject)
      ensures if ok then Valid() && head == old(head) + 1 else head == old(head)
    {
      hide ValidData, Levels, Handles, Count, CountFlow, FramesOf, Control, Step, Waits, NoEmptyBlock, Rest, Run;
      var e := events[head];
      Lookahead(events, head);
      ok := AnalyzeEvent(e);
      ok := StateMachine(e, g);
      if !ok {
        return;
      }
      OneEvent(events, head);
      MoveOn(Step(g, e.kind));
    }

    method MoveOn(ghost g: Grammar)
      requires head < |events| && AllValid(events) && events <= plan
      requires Handled(events[head], g) && g == Run(Start, Kinds(events[..head + 1]))
      modifies `head
      ensures Valid() && head == old(head) + 1
    {
      hide AllValid, Levels, Handles, Control, NoEmptyBlock, Rest, Run;
      head := head + 1;
    }

    /** Emits an event, and those before it that waited for it. It fails only if one of them is
      * not legal after those before it. */
    method Emit(event: Event) returns (ok: bool)
      requires Valid() && ValidData(event) && events + [event] <= plan && Passed(Kinds(events), head)
      modifies `rootContext, `mappingContext, `simpleKeyContext, `style, `tagHandle, `error, `state, `states,
        `indents, `indent, `flowLevel, `out,
        `tagDirectives, `bestIndent, `bestWidth, `anchor, `alias, `tagSuffix, `scalar, `value, `head, `events
      ensures events == old(events) + [event] && head >= old(head)
      ensures ok == (error == None)
      ensures ok ==> Valid() && Passed(Kinds(events), head) && Waits(Kinds(events[head..]))
      ensures !ok ==> Refused(Kinds(events), head)
    {
      hide ValidData, Levels, Handles, Control, Step, Waits, NoEmptyBlock, Run, Rest, Passed, Refused;
      QueueGrows(event);
      PassedGrows(Kinds(events), [event.kind], head);
      assert Kinds(events + [event]) == Kinds(events) + [event.kind];
      events := events + [event];
      ok := true;
      while true
        invariant ok && Valid() && events == old(events) + [event] && head >= old(head) && Passed(Kinds(events), head)
        decreases |events| - head
      {
        var more := NeedMoreEvents();
        if more {
          break;
        }
        OneEvent(events, head);
        HeadIsLegal();
        PassedOne(events, head);
        ok := HandleFirst(Open());
        if !ok {
          return;
        }
      }
    }

    lemma HeadIsLegal()
      requires Valid()
      ensures head <= |events| && Open() != Reject
    {
    }

    lemma QueueGrows(event: Event)
      requires Valid()
      ensures var es := events + [event]; es[..head] == events[..head] && (NoEmptyBlock(state, es[head..]))
    {
    }

    /** After STREAM-END everything is as it was at the start, and all was written. */
    lemma Drained()
      requires Valid() && Open() == End
      ensures Here() == Where(EndState, [], [], -1, 0, false) && goal == Printed(out, head)
    {
      hide Levels;
      NoLevels(EndState, indents, indent, flowLevel);
    }
  }

  /** Emits a stream of valid events. It fails exactly if it comes to an event that is not legal
    * after those before it. Of a complete stream, each event is handled once and in order, what
    * is written is what the recursive printer writes, it can be read back, and all stacks are
    * empty in the end. */
  method EmitAll(es: seq<Event>, canonical: bool, bestIndent: int, bestWidth: int, analysis: string -> ScalarData,
      pen: seq<Write> -> Pen)
    returns (out: seq<Write>, handled: nat, end: Where, ok: bool)
    requires AllValid(es)
    ensures ok == !(exists i :: Refused(Kinds(es), i))
    ensures Run(Start, Kinds(es)) != Reject ==> ok
    ensures Run(Start, Kinds(es)) == End ==>
      && Printed(out, |es|) == Layout(Settings(canonical, analysis, pen, bestIndent, bestWidth, []), es)
      && handled == |es| && end == Where(EndState, [], [], -1, 0, false)
    ensures Run(Start, Kinds(es)) == End ==>
      YamlReadback.Read(out, canonical) == YamlReadback.Found(YamlReadback.Shapes(es), |out|) && Deep(out)
    ensures Run(Start, Kinds(es)) == End ==>
      YamlStyles.WellWritten(Normal(Settings(canonical, analysis, pen, bestIndent, bestWidth, [])), es, out)
  {
    hide Run, ValidData, Waits, Emitter.Valid, Layout, Passed, Refused, YamlReadback.Read, YamlReadback.Shapes,
      YamlReadback.Named, Deep, YamlStyles.WellWritten, YamlStyles.NamedHandles, Normal;
    var emitter := new Emitter(canonical, bestIndent, bestWidth, analysis, pen, es);
    var i := 0;
    ok := true;
    WaitsForNothing();
    NonePassed();
    assert emitter.events[0..] == [];
    while i < |es|
      invariant i <= |es| && fresh(emitter) && emitter.Valid() && emitter.events == es[..i] && emitter.plan == es
      invariant emitter.goal == Layout(Settings(canonical, analysis, pen, bestIndent, bestWidth, []), es)
      invariant emitter.head <= i && Passed(Kinds(emitter.events), emitter.head) &&
        Waits(Kinds(emitter.events[emitter.head..]))
    {
      assert es[..i] + [es[i]] == es[..i + 1] <= es;
      ok := emitter.Emit(es[i]);
      if !ok {
        StaysRefused(es, emitter.head, i + 1);
        return emitter.out, emitter.head, emitter.Here(), false;
      }
      emitter.HeadIsLegal();
      i := i + 1;
    }
    assert es[..i] == es;
    emitter.HeadIsLegal();
    NoneRefused(es, emitter.head);
    AllHandled(es, emitter.head);
    if Run(Start, Kinds(es)) == End {
      emitter.Drained();
      AllNamed(es);
      ScalarsAreDeep(Settings(canonical, analysis, pen, bestIndent, bestWidth, []), es);
      YamlReadback.ReadBack(Settings(canonical, analysis, pen, bestIndent, bestWidth, []), es);
      YamlStyles.StreamKeeps(Settings(canonical, analysis, pen, bestIndent, bestWidth, []), es);
    }
    return emitter.out, emitter.head, emitter.Here(), true;
  }


  /** The state at the start of a collection fits the event, and a block collection has a child. */
  lemma StartFits(k: EventKind, flow: bool, states: seq<State>, queue: seq<Event>)
    requires k == SequenceStart || k == MappingStart
    requires !flow ==> queue != [] && queue[0].kind != Closer(k)
    ensures var first := FirstState(k == SequenceStart, flow);
      Placed(k, states, states, first) && NoEmptyBlock(first, queue)
  {
  }

  lemma AllNamed(es: seq<Event>)
    requires AllValid(es)
    ensures YamlReadback.Named(es) && YamlStyles.NamedHandles(es)
  {
    forall e | e in es && e.kind == DocumentStart ensures YamlStyles.AllHandles(e.tagDirectives) {
      var i :| 0 <= i < |es| && es[i] == e;
      assert ValidData(es[i]);
      assert forall j :: 0 <= j < |e.tagDirectives| ==> ValidTagDirective(e.tagDirectives[j]);
    }
    forall i | 0 <= i < |es| && es[i].kind == Alias ensures AnchorText(es[i]) != "" {
      assert ValidData(es[i]);
    }
  }

  lemma AtFirst(s: Settings, plan: seq<Event>)
    ensures Control(StreamStartState, [], Run(Start, Kinds([]))) && Levels([StreamStartState], [], -1, 0)
    ensures NoEmptyBlock(StreamStartState, []) && Handles([])
    ensures Layout(s, plan) == Rest(s, plan, 0, [], Where(StreamStartState, [], [], -1, 0, false))
  {
    hide Documents;
    assert [StreamStartState][..0] == [];
  }

  lemma NotFirst(s: State, queue: seq<Event>)
    requires !IsFirst(s)
    ensures NoEmptyBlock(s, queue)
  {
  }

  lemma WaitsForNothing()
    ensures Waits(Kinds([]))
  {
  }

  /** All events before the head were handled, so none of them is waited with. */
  ghost predicate Passed(ks: seq<EventKind>, head: nat) {
    head <= |ks| && forall h :: 0 <= h < head ==> !Waits(ks[h..])
  }

  /** The event at `i` is handled, and is the first that is not legal after those before it. */
  ghost predicate Refused(ks: seq<EventKind>, i: nat) {
    && i < |ks| && Passed(ks, i + 1)
    && Run(Start, ks[..i]) != Reject && Run(Start, ks[..i + 1]) == Reject
  }

  lemma NonePassed()
    ensures Passed(Kinds([]), 0)
  {
  }

  /** Waiting ends for good. */
  lemma WaitEnds(a: seq<EventKind>, b: seq<EventKind>)
    requires !Waits(a)
    ensures !Waits(a + b)
  {
    if Closes(a) {
      var i :| 0 < i <= |a| && Level(a[..i]) == 0;
      assert (a + b)[..i] == a[..i];
    }
  }

  lemma PassedGrows(ks: seq<EventKind>, more: seq<EventKind>, head: nat)
    requires Passed(ks, head)
    ensures Passed(ks + more, head)
  {
    hide Waits;
    forall h | 0 <= h < head ensures !Waits((ks + more)[h..]) {
      WaitEnds(ks[h..], more);
      assert (ks + more)[h..] == ks[h..] + more;
    }
  }

  lemma PassedOne(es: seq<Event>, head: nat)
    requires head < |es| && Passed(Kinds(es), head) && !Waits(Kinds(es[head..]))
    ensures Passed(Kinds(es), head + 1)
    ensures Run(Start, Kinds(es[..head])) != Reject && Run(Start, Kinds(es[..head + 1])) == Reject ==>
      Refused(Kinds(es), head)
  {
    hide Waits, Run;
    assert Kinds(es)[head..] == Kinds(es[head..]);
    assert Kinds(es)[..head] == Kinds(es[..head]) && Kinds(es)[..head + 1] == Kinds(es[..head + 1]);
  }

  lemma StaysRefused(es: seq<Event>, i: nat, j: nat)
    requires j <= |es| && Refused(Kinds(es[..j]), i)
    ensures Refused(Kinds(es), i) && Run(Start, Kinds(es)) == Reject
  {
    hide Waits, Run;
    var ks, some := Kinds(es), Kinds(es[..j]);
    assert ks == some + Kinds(es[j..]);
    assert ks[..i] == some[..i] && ks[..i + 1] == some[..i + 1];
    hide Passed;
    PassedGrows(some, Kinds(es[j..]), i + 1);
    RejectedFrom(ks, i + 1);
  }

  lemma RejectedFrom(ks: seq<EventKind>, i: nat)
    requires i <= |ks| && Run(Start, ks[..i]) == Reject
    ensures Run(Start, ks) == Reject
  {
    assert ks == ks[..i] + ks[i..];
    RunConcat(Start, ks[..i], ks[i..]);
    RunReject(ks[i..]);
  }

  /** An event that is not legal need not be refused: it may be waited with. */
  lemma IllegalMayWait()
    ensures var ks := [StreamStart, SequenceStart];
      Run(Start, ks) == Reject && forall i :: !Refused(ks, i)
  {
    var ks := [StreamStart, SequenceStart];
    assert ks[1..] == [SequenceStart] && ks[..1] == [StreamStart];
    RunFirst(Start, StreamStart, [SequenceStart]);
    RunOne(Start, StreamStart);
    RunOne(Stream, SequenceStart);
    LevelOfOne(SequenceStart);
    assert [SequenceStart][..1] == [SequenceStart];
    assert Waits(ks[1..]);
  }

  /** While the head of the queue waits, nothing behind it can be refused. */
  lemma NoneRefused(es: seq<Event>, head: nat)
    requires head <= |es| && Waits(Kinds(es[head..])) && Run(Start, Kinds(es[..head])) != Reject
    ensures !exists i :: Refused(Kinds(es), i)
  {
    hide Waits;
    var ks := Kinds(es);
    assert ks[head..] == Kinds(es[head..]) && ks[..head] == Kinds(es[..head]);
    if i: nat :| Refused(ks, i) {
      if i < head {
        assert ks[..head][..i + 1] == ks[..i + 1];
        RejectedFrom(ks[..head], i + 1);
      }
    }
  }

  lemma StreamStarted(s: Settings, es: seq<Event>, pos: nat, out: seq<Write>, w: Where)
    requires w.state == StreamStartState && pos < |es| && es[pos].kind == StreamStart
    ensures Rest(s, es, pos, out, w) ==
      Rest(Normal(s), es, pos + 1, out, Where(FirstDocumentStartState, [], [], -1, 0, false))
  {
    hide Documents;
  }

  /** Nothing of a complete stream is left in the queue. */
  lemma AllHandled(es: seq<Event>, head: nat)
    requires head <= |es| && Waits(Kinds(es[head..]))
    ensures Run(Start, Kinds(es)) == End ==> head == |es| && es[..head] == es
  {
    if Run(Start, Kinds(es)) == End && head < |es| {
      assert Kinds(es) == Kinds(es[..head]) + Kinds(es[head..]);
      RunConcat(Start, Kinds(es[..head]), Kinds(es[head..]));
      NothingWaits(Run(Start, Kinds(es[..head])), Kinds(es[head..]));
    }
  }

  lemma Lookahead(es: seq<Event>, head: nat)
    requires head < |es| && !Waits(Kinds(es[head..]))
    ensures es[head].kind == SequenceStart || es[head].kind == MappingStart ==> head + 1 < |es|
  {
    var ks := Kinds(es[head..]);
    if ks[0] == SequenceStart || ks[0] == MappingStart {
      NextIsKnown(ks);
    }
  }

  lemma OneEvent(es: seq<Event>, head: nat)
    requires head < |es|
    ensures Run(Start, Kinds(es[..head + 1])) == Step(Run(Start, Kinds(es[..head])), es[head].kind)
  {
    hide Step;
    assert es[..head + 1][..head] == es[..head];
    assert Kinds(es[..head + 1]) == Kinds(es[..head]) + [es[head].kind];
    RunConcat(Start, Kinds(es[..head]), [es[head].kind]);
    RunOne(Run(Start, Kinds(es[..head])), es[head].kind);
  }

  lemma NewHandle(ds: seq<TagDirective>, i: nat)
    requires i < |ds| && Distinct(ds[..i])
    ensures HasHandle(ds[..i], ds[i].handle) ==> !Distinct(ds)
    ensures !HasHandle(ds[..i], ds[i].handle) ==> Distinct(ds[..i + 1])
    ensures ds[..i] + [ds[i]] == ds[..i + 1]
  {
    if HasHandle(ds[..i], ds[i].handle) {
      var k :| 0 <= k < i && ds[..i][k].handle == ds[i].handle;
      assert ds[k].handle == ds[i].handle;
    }
  }

  lemma AllHaveHandles(ds: seq<TagDirective>)
    requires forall i :: 0 <= i < |ds| ==> ValidTagDirective(ds[i])
    ensures Handles(ds)
  {
  }

  /** The states outside of a document's node, and where they lead. */
  lemma Outside(g: Grammar, state: State, states: seq<State>, k: EventKind)
    requires Control(state, states, g)
    requires !InDocument(state) || state == DocumentEndState
    ensures states == []
    ensures Step(g, k) != Reject <==>
      match state
      case StreamStartState => k == StreamStart
      case DocumentEndState => k == DocumentEnd
      case EndState => false
      case _ => k == DocumentStart || k == StreamEnd
    ensures state == StreamStartState && k == StreamStart ==> Control(FirstDocumentStartState, [], Step(g, k))
    ensures state == DocumentEndState && k == DocumentEnd ==> Control(DocumentStartState, [], Step(g, k))
    ensures (state == FirstDocumentStartState || state == DocumentStartState) && k == DocumentStart ==>
      Control(DocumentContentState, [], Step(g, k))
    ensures (state == FirstDocumentStartState || state == DocumentStartState) && k == StreamEnd ==>
      Control(EndState, [], Step(g, k))
  {
    assert FramesOf([] + [state]) == [FrameOf(state)];
    assert FramesOf([] + [DocumentContentState]) == [DocFrame(false)];
  }

  lemma NoLevels(s: State, indents: seq<int>, indent: int, flowLevel: nat)
    requires Levels([] + [s], indents, indent, flowLevel) && !Indents(s)
    ensures indents == [] && indent == -1 && flowLevel == 0
  {
    CountOne([], s);
  }

  /** What may come next. */
  lemma Expected(g: Grammar, state: State, states: seq<State>, k: EventKind)
    requires Control(state, states, g) && InDocument(state)
    ensures Step(g, k) != Reject <==>
      match FrameOf(state)
      case SeqFrame => IsNode(k) || k == SequenceEnd
      case MapFrame(key) => IsNode(k) || (key && k == MappingEnd)
      case DocFrame(filled) => if filled then k == DocumentEnd else IsNode(k)
    ensures FrameOf(state).DocFrame? <==> states == []
  {
    var frames := FramesOf(states + [state]);
    assert frames[|frames| - 1] == FrameOf(state);
    if states == [] {
      assert frames == [FrameOf(state)];
    }
  }

  lemma SameLevels(states: seq<State>, s: State, t: State, indents: seq<int>, indent: int, flowLevel: nat)
    requires Indents(s) == Indents(t) && IsFlow(s) == IsFlow(t)
    ensures Levels(states + [s], indents, indent, flowLevel) == Levels(states + [t], indents, indent, flowLevel)
  {
    hide Count, CountFlow;
    CountOne(states, s);
    CountOne(states, t);
  }

  lemma LevelsBelow(states: seq<State>, s: State, indents: seq<int>, indent: int, flowLevel: nat)
    requires Levels(states + [s], indents, indent, flowLevel) && Indents(s)
    ensures indents != [] && (IsFlow(s) ==> flowLevel > 0)
    ensures Levels(states, indents[..|indents| - 1], indents[|indents| - 1], if IsFlow(s) then flowLevel - 1
      else flowLevel)
  {
    hide Count, CountFlow;
    CountOne(states, s);
    var below := indents[..|indents| - 1] + [indents[|indents| - 1]];
    assert below == indents;
  }

  lemma Left(g: Grammar, k: EventKind, state: State, states: seq<State>, queue: seq<Event>)
    requires Control(state, states, g) && Step(g, k) != Reject && (k == SequenceEnd || k == MappingEnd)
    ensures states != []
    ensures var n := |states| - 1;
      && Control(states[n], states[..n], Step(g, k)) && states[..n] + [states[n]] == states
      && InDocument(states[n]) && !IsFirst(states[n]) && NoEmptyBlock(states[n], queue)
  {
    hide Control, Step;
    CollectionClosed(g, k, state, states);
    StatesBelow(g, state, states);
  }

  /** A state that resumes is not one that starts a block collection. */
  lemma NotBlockFirst(state: State, queue: seq<Event>, k: EventKind, states0: seq<State>, cont: State,
      states: seq<State>)
    requires IsNode(k) && Placed(k, states0 + [cont], states, state) && Resumes(cont, states0 == [])
    requires NoEmptyBlock(state, queue) || k == Alias || k == Scalar
    ensures NoEmptyBlock(state, queue)
    ensures InDocument(state)
  {
    if k == Alias || k == Scalar {
      assert state == (states0 + [cont])[|states0|];
    }
  }

  /** A state that resumes is not a first one. */
  lemma Continues(s: State, bottom: bool)
    requires Resumes(s, bottom)
    ensures !IsFirst(s)
  {
  }

  lemma StatesBelow(g: Grammar, state: State, states: seq<State>)
    requires Control(state, states, g) && states != []
    ensures var top := states[|states| - 1]; InDocument(top) && !IsFirst(top)
  {
  }
}
